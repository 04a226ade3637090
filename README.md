# IntruSense core, modelled in Dafny

IntruSense is a Streamlit intrusion-detection dashboard. This project models its core:

- **Severity mapping and detection** (`common/detection_utlis.py`, modules `Severity` and `Detection`).
  - A predicted attack label maps to Low, Medium or High, case-insensitively.
  - Batch detection tags every row of a table with label, confidence and severity.
  - Streaming detection yields numbered events.
- **Authentication** (`auth.py`, module `Auth`).
  - The hard-coded admin pair, and logins against the users table.
  - Registration, which keeps the UNIQUE e-mail key of the users table.
- **The per-user session log store** (`common/log_utils.py`, module `LogStore`).
  - A user's directory name, numbered session files with a header, and appended log lines.
  - Listing sessions newest first, and deleting a session.
- **The live packet feature extractor** (`common/live_capture.py`, module `LiveCapture`).
  - A class holding the generator's closure state: the packet counter, per-flow byte sums and start times.
- **The live detection page** (`pages/detection_page.py`, module `LivePage`).
  - A class holding the session state.
  - Start, stop and one script run ("step") of the live stream.
  - The chart and live tables every event is appended to.
  - After the stream: the packet lookup and the attack search.
- **The model summary parser** of the admin dashboard (`pages/admin_dashboard.py`, module `ModelSummary`), with its layer-row regular expression written out as a matcher.
- **The user dashboard** metrics, risk panel, session card and greeting (`pages/user_dashboard.py`, module `Dashboard`).
- **The session log viewer**: KPIs, protocol names, severity badges and column order (`pages/session_logs.py`, module `SessionLogs`).
- **The session list**: sorting and search (`pages/session_user.py`, module `SessionSearch`).

Shared modules:

- `Wrappers`: Option and Result.
- `Strings`: lower-casing, splitting, stripping, searching and decimal rendering. Splitting, stripping, line splitting and searching follow Python's `str` methods, with Python's full whitespace and line-break sets. Case mapping covers ASCII letters only.
- `Tables`: a pandas frame as a column list and rows of cells. Cells are string, integer or NaN.
- `Ordering`: Python's string order, and a descending sort.

Module and operation names follow the system's own terms.

Code that changes state in place is modelled as classes:

- the users table (`Auth.UserTable`);
- the log directory (`LogStore.LogStore`);
- the capture generator (`LiveCapture.Capture`);
- the detection page's session state (`LivePage.Page`).

Their methods state the whole new state. Pure code is modelled as functions with lemmas.

## Model

| member | source | states |
|---|---|---|
| Severity.DetectSeverity | IDS-main/intrusense/common/detection_utlis.py:56-66 | The result is always one of the three levels. It is Low exactly for a label that lower-cases to "normal". It is High exactly for dos/r2l/u2r in any case. It is Medium for everything else: probe and every unknown label. |
| Severity.DetectSeverityCaseInsensitive | IDS-main/intrusense/common/detection_utlis.py:57 | Two labels with the same lower-casing get the same severity. |
| Severity.DetectSeverityOfLowered | IDS-main/intrusense/common/detection_utlis.py:57 | Lower-casing a label beforehand does not change its severity. |
| Severity.DetectSeverityTable | IDS-main/intrusense/common/detection_utlis.py:59-66 | The mapping on the listed vocabulary: normal/Normal, probe/Probe, dos/DOS/DoS, r2l/R2L and u2r/U2R. An unlisted label is Medium. |
| Detection.FirstMaxIndex | IDS-main/intrusense/common/detection_utlis.py:105 | The arg-max gives an index holding the maximum score, with every earlier score strictly smaller. This is numpy's first-maximum tie rule. |
| Detection.FirstMaxIndexUnique | IDS-main/intrusense/common/detection_utlis.py:105 | Those two properties determine the index uniquely. |
| Detection.RunDetection | IDS-main/intrusense/common/detection_utlis.py:72-113 | An empty table fails; otherwise the following hold. The row count is kept. Existing columns keep their order and cells. The result's columns are the input's followed, in the order Predicted_Attack, Confidence, Severity, by each of those the input lacks, and no others. Existing result columns are overwritten in place. Each row carries its arg-max label, its top score, and that label's severity. |
| Detection.StreamDetection | IDS-main/intrusense/common/detection_utlis.py:119-164 | An empty input fails. Otherwise one event per row from `start_index` on, in order. Each event is numbered with its 1-based row and carries label, confidence and the label's severity. |
| Detection.StreamAgreesWithBatch | IDS-main/intrusense/common/detection_utlis.py:105-111 | For every row, the streamed event's label, confidence and severity equal what batch mode writes into that row. |
| Detection.ThreeRowScenario | IDS-main/intrusense/common/detection_utlis.py:105-111 | Rows scored as normal, dos and probe are tagged Low, High and Medium, each with its top score. |
| Auth.Login | IDS-main/intrusense/auth.py:25-54 | The outcome follows these checks in order. (1) The admin pair gives "admin", whatever the table holds. (2) Otherwise an unknown e-mail gives "not_found". (3) A wrong password gives None (no result), even for a blocked account. (4) A right password gives "blocked" on a blocked account, and the stored role otherwise. |
| Auth.AdminIgnoresTable | IDS-main/intrusense/auth.py:27-29 | The admin login is the same under any users table. |
| Auth.WrongPasswordBeatsBlocked | IDS-main/intrusense/auth.py:48-52 | The password is checked before the blocked status. |
| Auth.UserTable.RegisterUser | IDS-main/intrusense/auth.py:8-21 | Registration succeeds exactly for a new e-mail. It adds a "user" row with status "active" (the column default), and the new account then logs in as "user". A duplicate e-mail leaves the table unchanged. |
| Auth.RegisterLeavesOthers | IDS-main/intrusense/auth.py:8-21 | Registering one e-mail does not change any other e-mail's login. |
| LogStore.UserDirName | IDS-main/intrusense/common/log_utils.py:8-11 | The directory name is the address with every "@" replaced by "_", character for character, and it holds no "@". |
| LogStore.UserDirNamesCollide | IDS-main/intrusense/common/log_utils.py:9 | Two different addresses can share one directory. |
| LogStore.ListedTimestampRoundTrip | IDS-main/intrusense/common/log_utils.py:21 | From a file name `start_new_session` makes, the listing reads back the timestamp with "_" shown as " ", whatever the session number. |
| LogStore.LogLine | IDS-main/intrusense/common/log_utils.py:49-55 | A log line has exactly the five header fields: the time of writing first, then the text of the row's packet, attack, severity and confidence cells, each under its own header name. |
| LogStore.LogLineDropsExtraKeys | IDS-main/intrusense/common/log_utils.py:49-55 | Keys beyond the four logged fields, such as the feature vector, do not change the line written. |
| LogStore.SortedListing | IDS-main/intrusense/common/log_utils.py:59 | Every file name of the directory appears once, in strictly descending order. |
| LogStore.LogStore.UserDir | IDS-main/intrusense/common/log_utils.py:8-11 | The user's directory exists afterwards. Its contents and every other directory are unchanged. |
| LogStore.LogStore.StartNewSession | IDS-main/intrusense/common/log_utils.py:14-34 | The session number is the directory's file count plus one. The new file `session_<n>_<timestamp>.csv` holds only the header. Nothing else in the store changes, and a new name adds exactly one file. |
| LogStore.LogStore.SaveLog | IDS-main/intrusense/common/log_utils.py:37-55 | The header is written first when the file is new, then the line is appended. A row missing a logged field raises after the header was written, so no line is appended. A missing directory fails with no change. |
| LogStore.LogStore.ListSessions | IDS-main/intrusense/common/log_utils.py:57-73 | The result is None exactly when some file name has fewer than two "_". Otherwise there is one entry per file, names strictly descending. Entries are numbered from the file count down to 1, each with the timestamp read from its name. |
| LogStore.LogStore.DeleteSession | IDS-main/intrusense/common/log_utils.py:77-79 | Exactly that file of the user's directory is removed. A name that is not there fails and removes nothing. |
| LogStore.NumberSessions | IDS-main/intrusense/common/log_utils.py:64-71 | The loop gives entry i the number (file count - i) and the i-th name's timestamp. It fails at a name that does not parse. |
| LogStore.NumberedListing | IDS-main/intrusense/common/log_utils.py:64-71 | Entries numbered down from the count over a sorted listing satisfy ListsSessions. Each file appears once, names strictly descend, entry i is numbered count minus i, and every timestamp is read from its name. Every file name of the directory parses. |
| LiveCapture.ProtocolType | IDS-main/intrusense/common/live_capture.py:32-37 | TCP is 1, UDP is 2, everything else is 3. |
| LiveCapture.FlowIdInjective | IDS-main/intrusense/common/live_capture.py:46 | For dash-free addresses, two packets share a flow id exactly when source, destination and protocol type agree. |
| LiveCapture.FlagCode | IDS-main/intrusense/common/live_capture.py:67-74 | SYN gives 1, else ACK gives 2, else FIN gives 3. None of them leaves the template's flag. |
| LiveCapture.FlagPrecedence | IDS-main/intrusense/common/live_capture.py:69-74 | A SYN-ACK is coded 1, a FIN-ACK 2, a lone FIN 3; RST alone leaves the flag. |
| LiveCapture.CaptureSeverity | IDS-main/intrusense/common/live_capture.py:86 | The stand-in severity is Low exactly for "Normal", and High otherwise. |
| LiveCapture.FeaturesFilled | IDS-main/intrusense/common/live_capture.py:19-74 | The keys are exactly the template's plus protocol_type, land, src_bytes, dst_bytes, duration, and flag when a TCP flag code exists. Those get: the protocol type, land (1 exactly for same source and destination), the flow's source-byte sum, 0, the duration and the flag code. Every other template value is kept, the flag too when no code applies. |
| LiveCapture.FlowBytesStep | IDS-main/intrusense/common/live_capture.py:48-53 | A packet adds its length to its own flow's byte sum and to no other flow's. |
| LiveCapture.FlowBytesUnseen | IDS-main/intrusense/common/live_capture.py:48-49 | A flow seen for the first time starts at 0 bytes. |
| LiveCapture.Capture.Record | IDS-main/intrusense/common/live_capture.py:48-60 | The flow's byte sum grows by the packet length. The start time is set only on the flow's first packet. |
| LiveCapture.Capture.ProcessPacket | IDS-main/intrusense/common/live_capture.py:12-94 | Every packet advances the counter. A non-IP packet yields nothing and changes nothing else. An IP packet yields an event with: the counter as its number; its feature vector; a label from Normal/DoS/Probe; confidence between 70 and 99 hundredths; and severity Low exactly for Normal. |
| LiveCapture.FakeOutput | IDS-main/intrusense/common/live_capture.py:84-86 | The stand-in label is one of Normal/DoS/Probe, the confidence lies in 70..99 hundredths, and the severity is Low exactly for Normal. |
| LiveCapture.Capture.NextEvent | IDS-main/intrusense/common/live_capture.py:99-103 | Packets are processed in order until one yields. Every packet skipped before it was non-IP. If the feed runs out, every packet in it was non-IP and the flow state is unchanged. An event is what processing the last consumed packet gives (`Processed`): the flow's length recorded, its start time kept or set to the packet's time, the features of the flow's new byte sum and age, a label, confidence 70..99 and the label's severity. |
| LiveCapture.CaptureSeverityOnLabels | IDS-main/intrusense/common/live_capture.py:84-86 | The stand-in gives Probe the severity High, where `detect_severity` gives Medium. |
| LivePage.SevNum | IDS-main/intrusense/pages/detection_page.py:252 | Low is 1 and only Low is 1. Medium is 2 and only Medium is 2. Anything else is 3. |
| LivePage.LiveChartSkipsMedium | IDS-main/intrusense/pages/detection_page.py:252 | Under the capture's severities the chart never plots 2. It plots 1 exactly for Normal. |
| LivePage.EventRow | IDS-main/intrusense/pages/detection_page.py:263-269 | The row for an event has every logged key. Label, severity and confidence are the event's own; they win over same-named features. The packet is the event number unless a feature shadows it. |
| LivePage.AppendShowsEvent | IDS-main/intrusense/pages/detection_page.py:255-271 | Appending an event's row keeps a table row-for-row aligned with the events shown. |
| LivePage.AppendKeepsTablesShow | IDS-main/intrusense/pages/detection_page.py:255-271 | Appending a later-numbered event to both tables keeps each in step with the events, with numbers strictly increasing. |
| LivePage.EmptyTablesShow | IDS-main/intrusense/pages/detection_page.py:184-185 | Emptied tables show no events. |
| LivePage.Page.constructor | IDS-main/intrusense/pages/detection_page.py:103-156 | The first script run: not running, no generator, both tables empty with their declared columns. |
| LivePage.Page.EnterPage | IDS-main/intrusense/pages/detection_page.py:113-120 | When the recorded last page is not this one, the stream is switched off. This page is then recorded, and nothing else changes. |
| LivePage.Page.LeavePage | IDS-main/intrusense/pages/detection_page.py:120 | Another page records its own name and changes nothing else. This is the write the test at line 113 relies on. |
| LivePage.Page.Start | IDS-main/intrusense/pages/detection_page.py:180-191 | Starting gives a running, fresh generator with a zero counter over the packets to come. Both tables are emptied with their columns kept. A new log session file is opened, and the store changes only by that file. |
| LivePage.Page.Reset | IDS-main/intrusense/pages/detection_page.py:181-185 | The page state after a start: fresh generator, emptied tables, the new log file. |
| LivePage.Page.Stop | IDS-main/intrusense/pages/detection_page.py:193-195 | Stopping: not running, no generator, and the tables and log file are kept. |
| LivePage.Page.Step | IDS-main/intrusense/pages/detection_page.py:238-279 | When not running, nothing happens, the feed and the store included. An exhausted generator stops the stream, with the feed used up and the store unchanged. On exhaustion every remaining packet was non-IP and the packet counter advanced by the feed's length. Otherwise the feed loses a non-empty prefix, the counter advances by its length, every consumed packet before the last was non-IP, the event carries the new counter, and it is what the generator's processing of the last consumed packet gives. It is logged (the header is written first when the file is new). On success its chart point and row are appended to the two tables, one each. A log failure leaves the tables and the store as they were. |
| LivePage.Page.Deliver | IDS-main/intrusense/pages/detection_page.py:243-271 | The event is logged; success is exactly the log directory existing. On success one chart point and one row are appended and the log file gains the line, after the header when the file is new. On failure tables and store are unchanged. The generator and the feed are untouched. |
| LivePage.Page.Pull | IDS-main/intrusense/pages/detection_page.py:241 | The generator runs to its next yield and its consumed packets leave the feed. The packet counter advances by their number and every consumed packet before the last was non-IP. The event carries the new counter, is numbered past every event shown and is what processing the last consumed packet gives (`Processed`). StopIteration happens exactly when every remaining packet is non-IP: it uses up the feed, advances the counter by the feed's length, leaves the flow state unchanged and switches the stream off. |
| LivePage.Page.Show | IDS-main/intrusense/pages/detection_page.py:255-271 | Exactly one chart point and one live row are appended, and the tables stay in step. |
| LivePage.ReturnKeepsStream | IDS-main/intrusense/pages/detection_page.py:113-120 | After a start, leaving for another page and coming back, the stream is still running. |
| LivePage.ReturnStopsStream | IDS-main/intrusense/pages/detection_page.py:113-120 | When the other page records itself, coming back switches the stream off. |
| LivePage.AppendedRowsCarryPacket | IDS-main/intrusense/pages/detection_page.py:255-271 | The row appended to either table carries the event's number as its packet. |
| LivePage.ColumnsDistinct | IDS-main/intrusense/pages/detection_page.py:122-156 | The chart's and the live table's column lists repeat no name. The live table has 30 columns. |
| LivePage.SelectPacket | IDS-main/intrusense/pages/detection_page.py:303-314 | Any number the input allows (1 to the row count) selects row number - 1. The severity shown is `detect_severity` of its label, always a level. |
| LivePage.SelectedPacketNumber | IDS-main/intrusense/pages/detection_page.py:303-312 | The selected row holds the k-th event shown. Its packet number is at least k, and larger once non-IP packets were skipped. |
| LivePage.ProbeShownAsMedium | IDS-main/intrusense/pages/detection_page.py:314 | A Probe row, logged as High by the capture, is shown as Medium by the lookup. |
| LivePage.HitAt | IDS-main/intrusense/pages/detection_page.py:361-363 | A result line carries the row's position, its label, the severity recomputed from the label (a level), and the row's confidence. |
| LivePage.SearchRows | IDS-main/intrusense/pages/detection_page.py:354-356 | Exactly the rows whose lower-cased label contains the query, each once, in row order. |
| LivePage.SearchAttacks | IDS-main/intrusense/pages/detection_page.py:351-363 | Nothing while the lower-cased query is empty. Otherwise exactly the rows whose lower-cased label contains it, in row order, each with its result line. |
| ModelSummary.QuotedName | IDS-main/intrusense/pages/admin_dashboard.py:465 | The model name is taken between the first two double quotes, so it holds none. |
| ModelSummary.ValueAfterColon | IDS-main/intrusense/pages/admin_dashboard.py:469-473 | The value is the text after the last colon, stripped. It holds no colon and has no surrounding whitespace. |
| ModelSummary.MatchTail | IDS-main/intrusense/pages/admin_dashboard.py:477 | A match of `\((None,\s*\d+)\)\s+(\d+)$`: the text is exactly `(None,`, spaces, a digit run, `)`, at least one space and a digit count (`FitsTail`); the groups are the shape `None,` spaces digits and the count. |
| ModelSummary.FirstFit | IDS-main/intrusense/pages/admin_dashboard.py:477 | The lazy `.*?` takes the first position at which the tail fits. No earlier position fits, and None means no position fits. |
| ModelSummary.LayerRow | IDS-main/intrusense/pages/admin_dashboard.py:476-484 | A match gives three groups: the whole run of word characters leading the line, a "None," shape, and a digit count ending the line. No match means the tail fits nowhere after the leading word. |
| ModelSummary.LayerRowFits | IDS-main/intrusense/pages/admin_dashboard.py:476-484 | A match's shape and count are the groups of the first place after the leading word where the pattern's tail matches to the end of the line; no earlier place matches. With MatchTail's contract the whole line fits the pattern. |
| ModelSummary.LayerRowOf | IDS-main/intrusense/pages/admin_dashboard.py:476-484 | A line built as word, filler, `(None, digits)`, spaces and count is read back as exactly those three groups. |
| ModelSummary.DenseLayerRow | IDS-main/intrusense/pages/admin_dashboard.py:476-484 | "dense (Dense) (None, 64) 2624" gives ["dense", "None, 64", "2624"]. |
| ModelSummary.LastWith | IDS-main/intrusense/pages/admin_dashboard.py:462-473 | No value exactly when no line carries the field. |
| ModelSummary.LastWithIsLast | IDS-main/intrusense/pages/admin_dashboard.py:462-473 | The value comes from a line carrying the field, and no later line carries it: the loop's last write wins. |
| ModelSummary.AnyLineIff | IDS-main/intrusense/pages/admin_dashboard.py:462 | The scan finds a line exactly when some line satisfies the test. |
| ModelSummary.CollectLayerRows | IDS-main/intrusense/pages/admin_dashboard.py:484 | Every collected layer row has three fields. |
| ModelSummary.ParseLines | IDS-main/intrusense/pages/admin_dashboard.py:462-486 | The loop fails exactly when some "Model:" line has no double quote, and reports the first one. Otherwise the result is each field from the last line carrying it (else the default), plus the matching layer rows in order. |
| ModelSummary.ParseModelSummary | IDS-main/intrusense/pages/admin_dashboard.py:455-486 | The same, over the text's lines. |
| ModelSummary.EmptySummaryDefaults | IDS-main/intrusense/pages/admin_dashboard.py:458-460 | With no lines the result is "Unknown", three "0" counts and no rows. |
| ModelSummary.NonTrainableLineIsNotTrainable | IDS-main/intrusense/pages/admin_dashboard.py:470-473 | The keys match case by case: a "Non-trainable params:" line sets only the non-trainable count. |
| Dashboard.ComputeMetrics | IDS-main/intrusense/pages/user_dashboard.py:31-43 | The counts come from the live table, or from an empty frame when there is none. Attacks are the `CountRows` of rows whose label is not exactly "Normal" (NaN counts); there are none without an attack column. High, Medium and Low are the `CountRows` of rows whose severity is exactly that string. All are bounded by the total, and each is zero exactly when no row qualifies. |
| Dashboard.AttackCount | IDS-main/intrusense/pages/user_dashboard.py:38-39 | No attack is counted exactly when every attack cell is "Normal". |
| Dashboard.SeverityCounts | IDS-main/intrusense/pages/user_dashboard.py:41-43 | The three severity counts add up to at most the row count, and each is zero exactly when no cell is that level. |
| Dashboard.AttackRatio | IDS-main/intrusense/pages/user_dashboard.py:45 | The ratio is 0 with no rows. Otherwise ratio times total equals 100 times attacks, and it lies between 0 and 100. |
| Dashboard.TotalEvents | IDS-main/intrusense/pages/user_dashboard.py:292 | The bar divisor is the severity sum, or 1 when the sum is zero, so it is never zero. |
| Dashboard.BarsWithinWidth | IDS-main/intrusense/pages/user_dashboard.py:292-305 | No distribution bar is wider than 100%. |
| Dashboard.Risk | IDS-main/intrusense/pages/user_dashboard.py:311-316 | HIGH RISK exactly with a high-severity row; otherwise MODERATE RISK exactly with an attack; otherwise LOW RISK. |
| Dashboard.Cta | IDS-main/intrusense/pages/user_dashboard.py:327-335 | The card class follows the same three-way test. |
| Dashboard.CtaFollowsRisk | IDS-main/intrusense/pages/user_dashboard.py:311-335 | Panel and card always agree on the class. Their texts agree only in the high-risk case. |
| Dashboard.UserName | IDS-main/intrusense/pages/user_dashboard.py:47-48 | The name is the text before the first "@", capitalised, so it holds no "@". |
| Dashboard.UserNameDefault | IDS-main/intrusense/pages/user_dashboard.py:47-48 | Without an e-mail the greeting says "User". |
| SessionLogs.ProtocolName | IDS-main/intrusense/pages/session_logs.py:14-18 | 1, 2 and 3 are TCP, UDP and ICMP, each exactly. Everything else is OTHER. |
| SessionLogs.SeverityBadge | IDS-main/intrusense/pages/session_logs.py:126-131 | High and Medium get their own badges, each exactly. Every other value gets the Low badge. |
| SessionLogs.KeepPresent | IDS-main/intrusense/pages/session_logs.py:161 | Exactly the listed columns that are present remain. |
| SessionLogs.KeepPresentIsSubsequence | IDS-main/intrusense/pages/session_logs.py:161 | They follow the listed order. |
| SessionLogs.KeepPresentNoDuplicates | IDS-main/intrusense/pages/session_logs.py:161 | None repeats when the list repeats none. |
| SessionLogs.PreferredOrderDistinct | IDS-main/intrusense/pages/session_logs.py:145-159 | The preferred order repeats no column. |
| SessionLogs.DisplayColumns | IDS-main/intrusense/pages/session_logs.py:145-162 | The shown columns are exactly the preferred ones the table has, in preferred order, each once. |
| SessionLogs.LevelTextIsString | IDS-main/intrusense/pages/session_logs.py:83-87 | After `astype(str)`, a cell reads as a level name exactly when it is that string. A number never does. |
| SessionLogs.SessionKpis | IDS-main/intrusense/pages/session_logs.py:82-87 | The total is the row count. High, Medium and Low are the `CountRows` of rows whose severity text is that level; they sum to at most the total, and each is zero exactly when no row is that level. |
| SessionLogs.KpiCounts | IDS-main/intrusense/pages/session_logs.py:83-87 | The three level counts fit in the row count, and each is zero exactly when no severity cell is that string. |
| SessionLogs.DisplayTable | IDS-main/intrusense/pages/session_logs.py:133-164 | The table shows the display columns and every row. Each protocol cell is named, each severity cell badged, and every other cell kept. |
| SessionLogs.SessionPage | IDS-main/intrusense/pages/session_logs.py:67-79 | The page stops exactly when no session is selected, or when the selected file has no rows. Otherwise it shows the KPIs and the display table. |
| SessionSearch.SortByTimestamp | IDS-main/intrusense/pages/session_user.py:35 | The same sessions (a permutation), newest timestamp first. |
| SessionSearch.FilterSessions | IDS-main/intrusense/pages/session_user.py:38-44 | Exactly the sessions whose "session n" label or lower-cased timestamp contains the query. |
| SessionSearch.FilterIsSubsequence | IDS-main/intrusense/pages/session_user.py:40-44 | Filtering keeps the list order. |
| SessionSearch.FilterIdempotent | IDS-main/intrusense/pages/session_user.py:40-44 | Filtering twice equals filtering once. |
| SessionSearch.EmptyQueryMatchesAll | IDS-main/intrusense/pages/session_user.py:38 | The empty query keeps every session. |
| SessionSearch.SubsequenceKeepsOrder | IDS-main/intrusense/pages/session_user.py:35-44 | A subsequence of the newest-first list is newest-first. |
| SessionSearch.Search | IDS-main/intrusense/pages/session_user.py:35-44 | The shown list is newest-first and keeps the sorted order. It holds exactly the sessions matching the lower-cased query, or all of them when the query is empty. |
| SessionSearch.QueryMatchesLongerNumber | IDS-main/intrusense/pages/session_user.py:41 | Numbers are matched as text: "session 3" also finds session 31. |
| Tables.SetColumn | IDS-main/intrusense/common/detection_utlis.py:109-111 | `df[name] = values` overwrites an existing column in place or appends a new one. Every other cell is untouched. |
| Tables.AppendRow | IDS-main/intrusense/pages/detection_page.py:271 | `df.loc[len(df)] = d` appends one row aligned on the columns: extra keys are dropped and missing columns hold NaN. Earlier rows are kept. |
| Tables.CountRows | IDS-main/intrusense/pages/user_dashboard.py:41-43 | The count of rows passing the test is at most the row count. |
| Tables.CountRowsIsCardinality | IDS-main/intrusense/pages/user_dashboard.py:41-43 | The count equals the number of row positions whose cell passes the test. |
| Tables.CountRowsAppend | IDS-main/intrusense/pages/user_dashboard.py:41-43 | Counting two blocks of rows together is counting each and adding. |
| Tables.CountRowsSingle | IDS-main/intrusense/pages/user_dashboard.py:41-43 | One row counts 1 exactly when its cell passes. |
| Tables.CountRowsExtremes | IDS-main/intrusense/pages/user_dashboard.py:41-43 | The count is zero exactly when no row passes, and the row count exactly when all do. |
| Ordering.SortDescBy | IDS-main/intrusense/pages/session_user.py:35 | The result is descending by key and is a permutation of its input. |

## Left out

- Rendering: Streamlit pages, CSS, charts, tabs, buttons, reruns and sleeps. The "Full Results" tab, the severity pie chart and the admin dashboard's other panels are not modelled. Only the values they display are.
- Floating point: confidences are integers (hundredths for the live capture, scores for the classifier). Rounding to two or three places is not modelled. `Dashboard.AttackRatio` is a real number before rounding.
- The classifier, scaler, label encoder and `load_and_preprocess` are collaborators. Their output is given as integer score vectors, and the collaborator's refusal of an empty table is the one error modelled. CSV parsing and pandas type inference are not modelled either: a table is given as cells.
- `common/feature_template.py` (`base_feature_vector`) is not part of this model. Its template is a parameter of the capture.
- Packet sniffing is not modelled, and neither are the clocks: packets and their arrival times are a finite feed fixed at Start. The clock's text, and the 0.1 ms ticks used for durations, are parameters.
- The real sniff loop never ends. The model's feed can run out, and that is what the page's StopIteration branch handles.
- Randomness: the stand-in label and confidence are chosen nondeterministically from the ranges the code draws them from.
- The unused `live_index` and `stream_busy` session keys are not modelled.
- The lookup's confidence display (`round(confidence * 100, 2)`) is not modelled.
- An exception out of `save_log` during a step ends that script run with the tables and the log store unchanged. The generator has already consumed the packet and advanced its counter and flow state, so that event is lost: it is neither logged nor shown. The model calls this `LogFailed`. The code has no handler for it.
- Timestamps and session numbers are taken as given. Their strftime format is not checked.
- Regular expressions: `\w` and `\d` are read as their ASCII classes. `\s` and `str.splitlines` use Python's full Unicode whitespace and line-break sets.
- `str.contains(query)` in the attack search treats the query as a regular expression. The model reads it as plain substring search, which agrees when the query has no special characters.
- A label cell that is not a string would make that search raise. The model reads such cells as text. Live rows always hold string labels.
- The session viewer's unreadable-file path (`pd.read_csv` raising) is not modelled. A selected session is given as a parsed table.
- Dashboard.ComputeMetrics: requires a severity column whenever the live table has rows. Without one, `df.get` returns None and `.sum()` raises; that crash is not modelled.
- SessionLogs.SessionPage: requires a severity column when the session has rows. That is the KeyError the code would raise.
- Ordering.SortDescBy: the model sorts by insertion; the stability of Python's sort is not stated.
- SessionSearch.SortByTimestamp: built on that sort, so the order of sessions with equal timestamps is not stated either.
- Dashboard.UserName: `str.capitalize` is modelled on ASCII letters only, so a name starting with a non-ASCII letter such as "émile" keeps its lower-case first letter, where Python gives "Émile".
- Strings.Lower, Strings.Capitalize: `str.lower`, `str.upper` and `str.capitalize` map only the ASCII letters. The severity mapping, the session search and the attack search lower-case through `Strings.Lower`, so their results are stated for that mapping.
- ModelSummary.ModelNameOf: gives "" for an unquoted "Model:" line. The parse fails before that value is used.
- The detection page's "Full Results" tab and its protocol mapping (lines 405-407) are the same mapping as `SessionLogs.ProtocolName`. It is not modelled a second time.

## Findings

| source | as written | input that shows it | evidently intended | confidence | as-written member | corrected member |
|---|---|---|---|---|---|---|
| IDS-main/intrusense/pages/detection_page.py:113-120 | The stream is switched off only when `_last_page` is not "detection", and no other page of the app ever writes that key. So after the first run the test never fires again. | Start the live stream, open the user dashboard, return to the detection page: the stream is still running and the next step pulls a packet. | Arriving from another page switches the stream off: every other page records itself in `_last_page` (`LivePage.Page.LeavePage`). | medium, not executed | LivePage.ReturnKeepsStream | LivePage.ReturnStopsStream |
