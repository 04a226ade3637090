/**
 * The per-user session log store of `common/log_utils.py`.
 *
 * The `logs` directory is a map from a user's directory name to that
 * directory's files, and each file is its list of CSV lines, one list of
 * field values per line. The clock is a parameter: `timestamp` is the text
 * `datetime.now().strftime(...)` produced.
 */
module LogStore {
  import opened Wrappers
  import opened Strings
  import opened Tables
  import opened Ordering

  type Line = seq<string>

  /** A directory: file name to the file's lines. */
  type Dir = map<string, seq<Line>>

  /** `os.path.join("logs", dir, name)`. */
  datatype Path = Path(dir: string, name: string)

  /** The header every session file starts with, and the only fields a log row keeps. */
  const LogFields: Line := ["timestamp", "packet", "attack", "severity", "confidence"]

  /** One entry of `list_sessions`. */
  datatype SessionInfo = SessionInfo(sessionNo: int, filename: string, timestamp: string)

  /** `_user_dir`'s directory name: the address with every "@" turned into "_". */
  function UserDirName(email: string): (r: string)
    ensures '@' !in r
    ensures |r| == |email|
    ensures forall i :: 0 <= i < |email| ==> r[i] == if email[i] == '@' then '_' else email[i]
  {
    ReplaceChar(email, '@', '_');
    ReplaceCharRemoves(email, '@', '_');
    Replace(email, "@", "_")
  }

  /** Two different addresses can share one log directory. */
  lemma UserDirNamesCollide()
    ensures UserDirName("a@b_c") == UserDirName("a_b@c") == "a_b_c"
  {
    assert UserDirName("a@b_c") == "a_b_c";
    assert UserDirName("a_b@c") == "a_b_c";
  }

  /** `f"session_{session_no}_{timestamp}.csv"`. */
  function SessionFileName(sessionNo: nat, timestamp: string): string {
    "session_" + NatToString(sessionNo) + "_" + timestamp + ".csv"
  }

  /**
   * The timestamp `list_sessions` shows for a file name: the name without
   * ".csv", split at the first two "_", the third part with "_" turned into
   * " ". None when the name has fewer than two "_" (the IndexError).
   */
  function ListedTimestamp(filename: string): Option<string> {
    var parts := Split(Replace(filename, ".csv", ""), '_', 2);
    if |parts| < 3 then None else Some(Replace(parts[2], "_", " "))
  }

  /** The decimal digits of a number hold neither "." nor "_". */
  lemma DigitsHaveNoSeparators(n: nat)
    ensures '.' !in NatToString(n) && '_' !in NatToString(n)
  {
    var d := NatToString(n);
    forall i | 0 <= i < |d| ensures d[i] != '.' && d[i] != '_' {
      assert IsDigit(d[i]);
    }
  }

  /** Splitting at a first separator that follows a separator-free head. */
  lemma SplitAtFirst(head: string, tail: string, sep: char, maxsplit: int)
    requires sep !in head && maxsplit > 0
    ensures Split(head + [sep] + tail, sep, maxsplit) == [head] + Split(tail, sep, maxsplit - 1)
  {
    var s := head + [sep] + tail;
    assert IndexOf(s, sep) == |head| by {
      assert s[|head|] == sep;
      assert forall j :: 0 <= j < |head| ==> s[j] == head[j];
    }
    assert s[..|head|] == head;
    assert s[|head| + 1..] == tail;
  }

  /**
   * Round trip: the listing gives back the creation timestamp of a session
   * file, with "_" shown as " ", whatever its session number.
   */
  lemma ListedTimestampRoundTrip(sessionNo: nat, timestamp: string)
    requires '.' !in timestamp
    ensures ListedTimestamp(SessionFileName(sessionNo, timestamp)) == Some(Replace(timestamp, "_", " "))
  {
    var digits := NatToString(sessionNo);
    DigitsHaveNoSeparators(sessionNo);
    var tail := digits + ['_'] + timestamp;
    var stem := "session" + ['_'] + tail;
    SessionFileNameParts(sessionNo, timestamp);
    NoDotInStem(digits, timestamp);
    StripCsv(stem);
    SessionWordHasNoUnderscore();
    SplitStem("session", digits, timestamp);
  }

  /** The fixed word of a session file name holds no "_". */
  lemma SessionWordHasNoUnderscore()
    ensures '_' !in "session"
  {
  }

  /** A stem of three parts joined by "_", the first two without "_", splits (at most twice) into the three. */
  lemma SplitStem(head: string, digits: string, timestamp: string)
    requires '_' !in head && '_' !in digits
    ensures Split(head + ['_'] + (digits + ['_'] + timestamp), '_', 2) == [head, digits, timestamp]
  {
    SplitAtFirst(head, digits + ['_'] + timestamp, '_', 2);
    SplitAtFirst(digits, timestamp, '_', 1);
    assert Split(timestamp, '_', 0) == [timestamp];
  }

  /** A session file name is its stem, split at the two "_", followed by ".csv". */
  lemma SessionFileNameParts(sessionNo: nat, timestamp: string)
    ensures SessionFileName(sessionNo, timestamp)
      == "session" + ['_'] + (NatToString(sessionNo) + ['_'] + timestamp) + ".csv"
  {
    var digits := NatToString(sessionNo);
    assert "session_" == "session" + ['_'] && "_" == ['_'];
    assert "session_" + digits + "_" + timestamp == "session" + ['_'] + (digits + ['_'] + timestamp);
  }

  /** Dropping ".csv" from a name whose stem holds no "." leaves the stem. */
  lemma StripCsv(stem: string)
    requires '.' !in stem
    ensures Replace(stem + ".csv", ".csv", "") == stem
  {
    ReplaceSuffixAway(stem, ".csv");
  }

  /** The stem of a session file name holds no "." when its timestamp holds none. */
  lemma NoDotInStem(digits: string, timestamp: string)
    requires '.' !in digits && '.' !in timestamp
    ensures '.' !in "session" + ['_'] + (digits + ['_'] + timestamp)
  {
    var tail := digits + ['_'] + timestamp;
    assert '.' !in tail;
  }

  /** The fields of `row` a log line keeps are all present (otherwise KeyError). */
  predicate HasLogKeys(row: map<string, Cell>) {
    "packet" in row && "attack" in row && "severity" in row && "confidence" in row
  }

  /** The line `save_log` writes: the time of writing and four fields of `row`, in header order. */
  function LogLine(timestamp: string, row: map<string, Cell>): (l: Line)
    requires HasLogKeys(row)
    ensures |l| == |LogFields| && l[0] == timestamp
    ensures forall k :: 1 <= k < |LogFields| ==> LogFields[k] in row && l[k] == CellText(row[LogFields[k]])
  {
    [timestamp, CellText(row["packet"]), CellText(row["attack"]), CellText(row["severity"]),
     CellText(row["confidence"])]
  }

  /** Keys other than the log fields (the feature vector, say) do not reach the file. */
  lemma LogLineDropsExtraKeys(timestamp: string, row: map<string, Cell>, extra: map<string, Cell>)
    requires HasLogKeys(row)
    requires forall k :: k in extra ==> k !in LogFields
    ensures HasLogKeys(extra + row) && HasLogKeys(row + extra)
    ensures LogLine(timestamp, row + extra) == LogLine(timestamp, row)
  {
    assert "packet" in LogFields && "attack" in LogFields && "severity" in LogFields && "confidence" in LogFields;
  }

  /** The file names of a directory, in some order, each once. */
  method Listing(names: set<string>) returns (r: seq<string>)
    ensures |r| == |names| && NoDuplicates(r)
    ensures forall x :: x in r <==> x in names
  {
    r := [];
    var rest := names;
    while rest != {}
      invariant rest <= names
      invariant forall x :: x in r <==> x in names - rest
      invariant NoDuplicates(r)
      invariant |r| + |rest| == |names|
      decreases |rest|
    {
      var x :| x in rest;
      assert x !in r;
      var next := r + [x];
      forall i, j | 0 <= i < j < |next| ensures next[i] != next[j] {
        if j < |r| {
          assert next[i] == r[i] && next[j] == r[j];
        } else {
          assert next[i] == r[i] && r[i] in r;
        }
      }
      r := next;
      rest := rest - {x};
    }
  }

  /** `sorted(os.listdir(path), reverse=True)`: every file name once, in strictly descending order. */
  method SortedListing(names: set<string>) returns (files: seq<string>)
    ensures |files| == |names|
    ensures forall x :: x in files <==> x in names
    ensures forall i, j :: 0 <= i < j < |files| ==> LexLess(files[j], files[i])
  {
    var listed := Listing(names);
    files := SortDescBy(listed, Identity);
    assert forall x :: x in files <==> x in listed by {
      forall x ensures x in files <==> x in listed {
        assert x in files <==> x in multiset(files);
      }
    }
    forall i, j | 0 <= i < j < |files|
      ensures LexLess(files[j], files[i])
    {
      DistinctAfterSort(listed, files, i, j);
      LexLessTotal(files[i], files[j]);
    }
  }

  /** Sorting keeps a sequence free of duplicates. */
  lemma DistinctAfterSort(listed: seq<string>, files: seq<string>, i: int, j: int)
    requires NoDuplicates(listed) && multiset(files) == multiset(listed)
    requires 0 <= i < j < |files|
    ensures files[i] != files[j]
  {
    if files[i] == files[j] {
      var x := files[i];
      assert multiset(files)[x] >= 2 by {
        assert files == files[..j] + files[j..];
        assert files[..j][i] == x && files[j..][0] == x;
        assert x in multiset(files[..j]) && x in multiset(files[j..]);
      }
      MultiplicityOne(listed, files[i]);
      assert false;
    }
  }

  function Identity(s: string): string { s }

  /** The log directory, whose files `start_new_session`, `save_log` and `delete_session` change. */
  class LogStore {
    var dirs: map<string, Dir>

    constructor ()
      ensures dirs == map[]
    {
      dirs := map[];
    }

    /** The directory's contents, empty when it does not exist yet. */
    function Files(dir: string): Dir
      reads this
    {
      if dir in dirs then dirs[dir] else map[]
    }

    /** `_user_dir`: the user's directory, created empty if missing. */
    method UserDir(email: string) returns (dir: string)
      modifies this
      ensures dir == UserDirName(email)
      ensures dirs == old(dirs)[dir := old(Files(dir))]
    {
      dir := UserDirName(email);
      if dir !in dirs {
        dirs := dirs[dir := map[]];
      }
    }

    /**
     * `start_new_session`: numbers the session one past the number of files the
     * directory holds, and writes a file holding only the header under
     * `session_<n>_<timestamp>.csv`. Nothing else in the store changes; if
     * that name is new, the directory grows by exactly one file.
     */
    method StartNewSession(email: string, timestamp: string) returns (path: Path)
      modifies this
      ensures path.dir == UserDirName(email)
      ensures path.name == SessionFileName(|old(Files(path.dir))| + 1, timestamp)
      ensures dirs == old(dirs)[path.dir := old(Files(path.dir))[path.name := [LogFields]]]
      ensures path.name !in old(Files(path.dir)) ==> |Files(path.dir)| == |old(Files(path.dir))| + 1
    {
      var dir := UserDir(email);
      var existing := dirs[dir];
      var name := SessionFileName(|existing| + 1, timestamp);
      dirs := dirs[dir := existing[name := [LogFields]]];
      path := Path(dir, name);
    }

    /**
     * `save_log`: appends one line to the file, writing the header first when
     * the file did not exist. A row lacking one of the log fields raises after
     * the file was opened: the header (if new) is written, the line is not, and
     * `ok` is false. A missing directory makes the open fail with no change.
     */
    method SaveLog(path: Path, row: map<string, Cell>, timestamp: string) returns (ok: bool)
      modifies this
      ensures path.dir !in old(dirs) ==> !ok && dirs == old(dirs)
      ensures path.dir in old(dirs) ==> ok == HasLogKeys(row)
      ensures path.dir in old(dirs) ==>
        var before := old(dirs)[path.dir];
        var existing := if path.name in before then before[path.name] else [];
        var header := if path.name in before then [] else [LogFields];
        dirs == old(dirs)[path.dir := before[path.name := existing + header + if ok then [LogLine(timestamp, row)] else []]]
    {
      if path.dir !in dirs {
        return false;
      }
      var dir := dirs[path.dir];
      var existing := if path.name in dir then dir[path.name] else [];
      var header := if path.name in dir then [] else [LogFields];
      ok := HasLogKeys(row);
      var written := if ok then [LogLine(timestamp, row)] else [];
      dirs := dirs[path.dir := dir[path.name := existing + header + written]];
    }

    /**
     * `list_sessions`: the user's files, newest name first, numbered from the
     * file count down to 1, each with the timestamp read from its name. None
     * when some file name has fewer than two "_" (the IndexError).
     */
    method ListSessions(email: string) returns (r: Option<seq<SessionInfo>>)
      modifies this
      ensures dirs == old(dirs)[UserDirName(email) := old(Files(UserDirName(email)))]
      ensures var names := Files(UserDirName(email)).Keys;
        r.Some? <==> forall f :: f in names ==> ListedTimestamp(f).Some?
      ensures r.Some? ==> ListsSessions(Files(UserDirName(email)).Keys, r.value)
    {
      var dir := UserDir(email);
      var files := SortedListing(dirs[dir].Keys);
      r := NumberSessions(files);
      if r.Some? {
        NumberedListing(dirs[dir].Keys, files, r.value);
      } else {
        var k :| 0 <= k < |files| && ListedTimestamp(files[k]).None?;
        assert files[k] in dirs[dir].Keys;
      }
    }

    /**
     * `delete_session`: removes exactly that file of the user's directory and
     * leaves every other file where it was; a name that is not there raises
     * (FileNotFoundError) and removes nothing.
     */
    method DeleteSession(email: string, filename: string) returns (ok: bool)
      modifies this
      ensures var dir := UserDirName(email);
        && ok == (filename in old(Files(dir)))
        && dirs == old(dirs)[dir := old(Files(dir)) - {filename}]
    {
      var dir := UserDir(email);
      ok := filename in dirs[dir];
      dirs := dirs[dir := dirs[dir] - {filename}];
    }
  }

  /**
   * The enumerate loop of `list_sessions`: entry i carries number |files| - i
   * and the timestamp read from the i-th name; None at the first name that
   * does not parse.
   */
  method NumberSessions(files: seq<string>) returns (r: Option<seq<SessionInfo>>)
    ensures r.Some? <==> forall k :: 0 <= k < |files| ==> ListedTimestamp(files[k]).Some?
    ensures r.Some? ==> |r.value| == |files| && forall k :: 0 <= k < |files| ==>
      r.value[k] == SessionInfo(|files| - k, files[k], ListedTimestamp(files[k]).value)
  {
    var sessions: seq<SessionInfo> := [];
    var i := 0;
    while i < |files|
      invariant 0 <= i <= |files|
      invariant |sessions| == i
      invariant forall k :: 0 <= k < i ==> ListedTimestamp(files[k]).Some?
      invariant forall k :: 0 <= k < i ==>
        sessions[k] == SessionInfo(|files| - k, files[k], ListedTimestamp(files[k]).value)
    {
      var timestamp := ListedTimestamp(files[i]);
      if timestamp.None? {
        return None;
      }
      var next := sessions + [SessionInfo(|files| - i, files[i], timestamp.value)];
      forall k | 0 <= k < i + 1
        ensures ListedTimestamp(files[k]).Some?
        ensures next[k] == SessionInfo(|files| - k, files[k], ListedTimestamp(files[k]).value)
      {
        if k < i {
          assert next[k] == sessions[k];
        }
      }
      sessions := next;
      i := i + 1;
    }
    r := Some(sessions);
  }

  /**
   * The listing of a directory holding these file names: every file once,
   * newest name first, numbered from the file count down to 1, each with the
   * timestamp read from its name.
   */
  ghost predicate ListsSessions(names: set<string>, sessions: seq<SessionInfo>) {
    && |sessions| == |names|
    && (forall f :: f in names <==> exists i :: 0 <= i < |sessions| && sessions[i].filename == f)
    && (forall i, j :: 0 <= i < j < |sessions| ==> LexLess(sessions[j].filename, sessions[i].filename))
    && (forall i :: 0 <= i < |sessions| ==>
          sessions[i].sessionNo == |names| - i && Some(sessions[i].timestamp) == ListedTimestamp(sessions[i].filename))
  }

  /** The entries numbered from a sorted listing list the directory, and every name in it parses. */
  lemma NumberedListing(names: set<string>, files: seq<string>, sessions: seq<SessionInfo>)
    requires |files| == |names| && forall x :: x in files <==> x in names
    requires forall i, j :: 0 <= i < j < |files| ==> LexLess(files[j], files[i])
    requires |sessions| == |files|
    requires forall k :: 0 <= k < |files| ==> ListedTimestamp(files[k]).Some?
    requires forall k :: 0 <= k < |files| ==>
      sessions[k] == SessionInfo(|files| - k, files[k], ListedTimestamp(files[k]).value)
    ensures forall f :: f in names ==> ListedTimestamp(f).Some?
    ensures ListsSessions(names, sessions)
  {
    forall f | f in names
      ensures ListedTimestamp(f).Some? && exists i :: 0 <= i < |sessions| && sessions[i].filename == f
    {
      var k :| 0 <= k < |files| && files[k] == f;
      assert sessions[k].filename == f;
    }
    forall i, j | 0 <= i < j < |sessions| ensures LexLess(sessions[j].filename, sessions[i].filename) {
      assert sessions[i].filename == files[i] && sessions[j].filename == files[j];
    }
    forall i | 0 <= i < |sessions|
      ensures sessions[i].sessionNo == |names| - i
      ensures Some(sessions[i].timestamp) == ListedTimestamp(sessions[i].filename)
    {
      assert sessions[i] == SessionInfo(|files| - i, files[i], ListedTimestamp(files[i]).value);
    }
  }

  /** In a sequence without duplicates, every element occurs at most once. */
  lemma {:induction false} MultiplicityOne(s: seq<string>, x: string)
    requires NoDuplicates(s)
    ensures multiset(s)[x] <= 1
  {
    if s != [] {
      assert s == [s[0]] + s[1..];
      assert NoDuplicates(s[1..]) by {
        forall i, j | 0 <= i < j < |s[1..]| ensures s[1..][i] != s[1..][j] {
          assert s[i + 1] != s[j + 1];
        }
      }
      MultiplicityOne(s[1..], x);
      if s[0] == x {
        assert x !in s[1..] by {
          forall j | 0 <= j < |s[1..]| ensures s[1..][j] != x {
            assert s[0] != s[j + 1];
          }
        }
      }
    }
  }
}
