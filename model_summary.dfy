/**
 * `parse_model_summary` of `pages/admin_dashboard.py`: the text Keras prints
 * for `model.summary()` is read line by line into a model name, three
 * parameter counts (kept as text) and a table of layer rows.
 */
module ModelSummary {
  import opened Wrappers
  import opened Strings

  datatype Summary = Summary(modelName: string, totalParams: string, trainableParams: string,
                             nonTrainableParams: string, rows: seq<seq<string>>)

  /** A "Model:" line without a double quote makes `line.split('"')[1]` raise. */
  datatype ParseError = UnquotedModelLine(lineIndex: nat)

  const TotalKey := "Total params:"
  const TrainableKey := "Trainable params:"
  const NonTrainableKey := "Non-trainable params:"

  // ------------------------------------------------------ line rules

  /** The line announces the model name. */
  predicate IsModelLine(line: string) {
    StartsWith(Strip(line), "Model:")
  }

  /** `line.split('"')[1]`: the text between the first and second double quote (or to the end). */
  function QuotedName(line: string): (r: string)
    requires '"' in line
    ensures '"' !in r
  {
    Split(line, '"', -1)[1]
  }

  /** `line.split(':')[-1].strip()`: the stripped text after the last colon. */
  function ValueAfterColon(line: string): (r: string)
    ensures ':' !in r
    ensures r != [] ==> !IsSpace(r[0]) && !IsSpace(r[|r| - 1])
  {
    var v := AfterLast(line, ':');
    var r := Strip(v);
    StripInside(v);
    r
  }

  /** Strip returns a piece of its argument, so it adds no character. */
  lemma StripInside(s: string)
    ensures forall c :: c in Strip(s) ==> c in s
  {
    var t := TrimStart(s);
    assert forall c :: c in TrimEnd(t) ==> c in t by {
      forall c | c in TrimEnd(t) ensures c in t {
        var i :| 0 <= i < |TrimEnd(t)| && TrimEnd(t)[i] == c;
        assert t[i] == c;
      }
    }
    forall c | c in t ensures c in s {
      var i :| 0 <= i < |t| && t[i] == c;
      assert s[|s| - |t| + i] == c;
    }
  }

  // ------------------------------------------------------ the layer-row pattern

  /** `\w` restricted to ASCII. */
  predicate IsWordChar(c: char) {
    'a' <= c <= 'z' || 'A' <= c <= 'Z' || '0' <= c <= '9' || c == '_'
  }

  /** Length of the run of whitespace that starts s. */
  function SpaceRun(s: string): (n: nat)
    ensures n <= |s|
    ensures forall j :: 0 <= j < n ==> IsSpace(s[j])
  {
    if s == [] || !IsSpace(s[0]) then 0 else 1 + SpaceRun(s[1..])
  }

  /** Length of the run of digits that starts s. */
  function DigitRun(s: string): (n: nat)
    ensures n <= |s|
    ensures forall j :: 0 <= j < n ==> IsDigit(s[j])
  {
    if s == [] || !IsDigit(s[0]) then 0 else 1 + DigitRun(s[1..])
  }

  /** Length of the run of word characters that starts s. */
  function WordRun(s: string): (n: nat)
    ensures n <= |s|
    ensures forall j :: 0 <= j < n ==> IsWordChar(s[j])
    ensures n < |s| ==> !IsWordChar(s[n])
  {
    if s == [] || !IsWordChar(s[0]) then 0 else 1 + WordRun(s[1..])
  }

  /** `\d+\)` at the start of b: the digits and what follows the parenthesis. */
  function DigitsThenParen(b: string): (r: Option<(string, string)>)
    ensures r.Some? ==> |r.value.0| > 0 && AllDigits(r.value.0) && b == r.value.0 + [')'] + r.value.1
  {
    var d := DigitRun(b);
    if d == 0 || d == |b| || b[d] != ')' then None
    else
      assert b == b[..d] + [')'] + b[d + 1..];
      Some((b[..d], b[d + 1..]))
  }

  /** `\s+(\d+)$` at the start of c: the final count. */
  function SpacesThenCount(c: string): (r: Option<string>)
    ensures r.Some? ==> |r.value| > 0 && AllDigits(r.value) && |r.value| < |c|
    ensures r.Some? ==> c[|c| - |r.value|..] == r.value
    ensures r.Some? ==> 0 < SpaceRun(c) && c[SpaceRun(c)..] == r.value
  {
    var w := SpaceRun(c);
    var e := c[w..];
    if w == 0 || |e| == 0 || !AllDigits(e) then None
    else Some(e)
  }

  /** The pieces of a tail: spaces, digits, at least one space, a digit count. */
  predicate TailPieces(sp1: string, digits: string, sp2: string, count: string) {
    && (forall j :: 0 <= j < |sp1| ==> IsSpace(sp1[j]))
    && |digits| > 0 && AllDigits(digits)
    && |sp2| > 0 && (forall j :: 0 <= j < |sp2| ==> IsSpace(sp2[j]))
    && |count| > 0 && AllDigits(count)
  }

  /**
   * t is `(None,` spaces digits `)` spaces count, with the shape group
   * `None,` spaces digits and the count group.
   */
  ghost predicate FitsTail(t: string, shape: string, count: string) {
    exists sp1, digits, sp2 :: (TailPieces(sp1, digits, sp2, count)
      && shape == "None," + sp1 + digits && t == "(None," + sp1 + digits + [')'] + sp2 + count)
  }

  /**
   * `\((None,\s*\d+)\)\s+(\d+)$` anchored at the start of t: the shape group
   * and the parameter-count group.
   */
  function MatchTail(t: string): (r: Option<(string, string)>)
    ensures r.Some? ==> StartsWith(r.value.0, "None,") && StartsWith(t, "(" + r.value.0 + ")")
    ensures r.Some? ==> |r.value.1| > 0 && AllDigits(r.value.1)
    ensures r.Some? ==> |r.value.1| < |t| && t[|t| - |r.value.1|..] == r.value.1
    ensures r.Some? ==> FitsTail(t, r.value.0, r.value.1)
  {
    if !StartsWith(t, "(None,") then None
    else
      var a := t[6..];
      var w := SpaceRun(a);
      match DigitsThenParen(a[w..])
      case None => None
      case Some((digits, c)) =>
        match SpacesThenCount(c)
        case None => None
        case Some(count) =>
          TailMatched(t, w, digits, c, count);
          TailFitsAt(t, w, digits, c, SpaceRun(c), count);
          Some((t[1..6] + a[..w] + digits, count))
  }

  /** The matched pieces witness FitsTail. */
  lemma TailFitsAt(t: string, w: nat, digits: string, c: string, k: nat, count: string)
    requires StartsWith(t, "(None,") && w <= |t| - 6 && t[6..][w..] == digits + [')'] + c
    requires forall j :: 0 <= j < w ==> IsSpace(t[6..][j])
    requires |digits| > 0 && AllDigits(digits)
    requires 0 < k <= |c| && (forall j :: 0 <= j < k ==> IsSpace(c[j])) && c[k..] == count
    requires |count| > 0 && AllDigits(count)
    ensures FitsTail(t, t[1..6] + t[6..][..w] + digits, count)
  {
    var a := t[6..];
    var none := t[1..6];
    assert none == "None,";
    var sp1, sp2 := a[..w], c[..k];
    assert TailPieces(sp1, digits, sp2, count);
    assert c == sp2 + count;
    assert a == sp1 + a[w..];
    Regroup(t, none, a, sp1, digits, c);
    assert t == "(None," + sp1 + digits + [')'] + sp2 + count;
  }

  /** The pieces the tail pattern matched give its two groups. */
  lemma TailMatched(t: string, w: nat, digits: string, c: string, count: string)
    requires StartsWith(t, "(None,") && w <= |t| - 6 && t[6..][w..] == digits + [')'] + c
    requires |count| < |c| && c[|c| - |count|..] == count
    ensures var shape := t[1..6] + t[6..][..w] + digits;
      StartsWith(shape, "None,") && StartsWith(t, "(" + shape + ")")
    ensures |count| < |t| && t[|t| - |count|..] == count
  {
    var a := t[6..];
    var none := t[1..6];
    assert none == "None,";
    assert a == a[..w] + a[w..];
    Regroup(t, none, a, a[..w], digits, c);
    var shape := none + a[..w] + digits;
    SuffixOfSuffix(t, ['('] + shape + [')'], c, |count|);
  }

  /** The last k characters of a suffix are the last k characters of the whole. */
  lemma SuffixOfSuffix(t: string, p: string, c: string, k: nat)
    requires t == p + c && k <= |c|
    ensures |c| <= |t| && t[|t| - k..] == c[|c| - k..]
  {
    assert t[|p|..] == c;
    assert t[|p|..][|c| - k..] == t[|t| - k..];
  }

  /** Re-bracketing the pieces of a matched tail. */
  lemma Regroup(t: string, none: string, a: string, spaces: string, digits: string, c: string)
    requires |t| >= 6 && t[0] == '(' && none == t[1..6] && a == t[6..]
    requires a == spaces + (digits + [')'] + c)
    ensures StartsWith(none + spaces + digits, none)
    ensures t == ['('] + (none + spaces + digits) + [')'] + c
  {
    assert t == t[..1] + t[1..6] + t[6..];
    assert (none + spaces + digits)[..|none|] == none;
  }

  /**
   * The lazy `.*?`: the first position p >= from at which the matcher m fits
   * the rest of s, with what it captured there.
   */
  function FirstFit(s: string, from: nat, m: string -> Option<(string, string)>): (r: Option<(nat, (string, string))>)
    ensures r.Some? ==> from <= r.value.0 <= |s| && m(s[r.value.0..]) == Some(r.value.1)
    ensures r.Some? ==> forall q {:trigger m(s[q..])} :: from <= q < r.value.0 ==> m(s[q..]).None?
    ensures r.None? ==> forall q {:trigger m(s[q..])} :: from <= q <= |s| ==> m(s[q..]).None?
    decreases |s| - from
  {
    if from > |s| then None
    else
      var found := m(s[from..]);
      if found.Some? then Some((from, found.value)) else FirstFit(s, from + 1, m)
  }

  /** FirstFit passes over positions where the matcher does not fit. */
  lemma {:induction false} FirstFitSkips(s: string, from: nat, to: nat, m: string -> Option<(string, string)>)
    requires from <= to <= |s|
    requires forall q :: from <= q < to ==> m(s[q..]).None?
    ensures FirstFit(s, from, m) == FirstFit(s, to, m)
    decreases (to as int) - (from as int)
  {
    if from < to {
      FirstFitSkips(s, from + 1, to, m);
    }
  }

  /** FirstFit stops at the first position where the matcher fits. */
  lemma FirstFitHere(s: string, from: nat, m: string -> Option<(string, string)>)
    requires from <= |s| && m(s[from..]).Some?
    ensures FirstFit(s, from, m) == Some((from, m(s[from..]).value))
  {
  }

  /**
   * `re.search(r'^(\w+).*?\((None,\s*\d+)\)\s+(\d+)$', s)`. The `\w+` group
   * is the whole leading word (a shorter one leaves the same positions to `.*?`,
   * as `(` is not a word character), and the shape is taken at the first place
   * the tail pattern fits.
   */
  function LayerRow(s: string): (r: Option<seq<string>>)
    ensures r.Some? ==> |r.value| == 3
    ensures r.Some? ==> |r.value[0]| > 0 && StartsWith(s, r.value[0]) && forall j :: 0 <= j < |r.value[0]| ==> IsWordChar(r.value[0][j])
    ensures r.Some? ==> |r.value[0]| == WordRun(s) && (|r.value[0]| < |s| ==> !IsWordChar(s[|r.value[0]|]))
    ensures r.Some? ==> StartsWith(r.value[1], "None,")
    ensures r.Some? ==> |r.value[2]| > 0 && AllDigits(r.value[2]) && |r.value[2]| <= |s| && s[|s| - |r.value[2]|..] == r.value[2]
    ensures r.None? && WordRun(s) > 0 ==> forall q :: WordRun(s) <= q <= |s| ==> MatchTail(s[q..]).None?
  {
    var m := WordRun(s);
    if m == 0 then None
    else
      match FirstFit(s, m, MatchTail)
      case None => None
      case Some((p, groups)) =>
        assert MatchTail(s[p..]) == Some(groups);
        SuffixAfter(s, p, groups.1);
        Some([s[..m], groups.0, groups.1])
  }

  /**
   * A match is read at a position after the leading word where the tail
   * pattern fits, with no fitting position before it: the shape and count
   * groups are the tail's, so the line has the whole pattern.
   */
  lemma LayerRowFits(s: string)
    requires LayerRow(s).Some?
    ensures exists p :: (WordRun(s) <= p <= |s| && MatchTail(s[p..]) == Some((LayerRow(s).value[1], LayerRow(s).value[2]))
      && forall q :: WordRun(s) <= q < p ==> MatchTail(s[q..]).None?)
  {
    var m := WordRun(s);
    var found := FirstFit(s, m, MatchTail);
    assert found.Some?;
    var p := found.value.0;
    assert MatchTail(s[p..]) == Some(found.value.1);
  }

  /** What ends the rest of s from position p ends s. */
  lemma SuffixAfter(s: string, p: nat, count: string)
    requires p <= |s| && |count| <= |s| - p && s[p..][|s| - p - |count|..] == count
    ensures |count| <= |s| && s[|s| - |count|..] == count
  {
    var t := s[p..];
    assert s == s[..p] + t;
    SuffixOfSuffix(s, s[..p], t, |count|);
  }

  /** SpaceRun measures a leading run of whitespace exactly. */
  lemma {:induction false} SpaceRunOf(w: string, rest: string)
    requires forall j :: 0 <= j < |w| ==> IsSpace(w[j])
    requires rest == [] || !IsSpace(rest[0])
    ensures SpaceRun(w + rest) == |w|
  {
    if w != [] {
      assert (w + rest)[1..] == w[1..] + rest;
      SpaceRunOf(w[1..], rest);
    }
  }

  /** DigitRun measures a leading run of digits exactly. */
  lemma {:induction false} DigitRunOf(w: string, rest: string)
    requires AllDigits(w)
    requires rest == [] || !IsDigit(rest[0])
    ensures DigitRun(w + rest) == |w|
  {
    if w != [] {
      assert (w + rest)[1..] == w[1..] + rest;
      DigitRunOf(w[1..], rest);
    }
  }

  /** WordRun measures a leading run of word characters exactly. */
  lemma {:induction false} WordRunOf(w: string, rest: string)
    requires forall j :: 0 <= j < |w| ==> IsWordChar(w[j])
    requires rest == [] || !IsWordChar(rest[0])
    ensures WordRun(w + rest) == |w|
  {
    if w != [] {
      assert (w + rest)[1..] == w[1..] + rest;
      WordRunOf(w[1..], rest);
    }
  }

  /**
   * The converse of MatchTail's contract: every text of the form
   * `(None,` spaces digits `)` spaces digits is matched, with the shape and
   * the count as its two groups.
   */
  lemma MatchTailOf(sp1: string, digits: string, sp2: string, count: string)
    requires forall j :: 0 <= j < |sp1| ==> IsSpace(sp1[j])
    requires |digits| > 0 && AllDigits(digits)
    requires |sp2| > 0 && forall j :: 0 <= j < |sp2| ==> IsSpace(sp2[j])
    requires |count| > 0 && AllDigits(count)
    ensures MatchTail("(None," + sp1 + digits + [')'] + sp2 + count) == Some(("None," + sp1 + digits, count))
  {
    var t := "(None," + sp1 + digits + [')'] + sp2 + count;
    var c := sp2 + count;
    var b := digits + [')'] + c;
    assert t[..6] == "(None,";
    var a := t[6..];
    assert a == sp1 + b;
    SpaceRunOf(sp1, b);
    assert a[|sp1|..] == b && a[..|sp1|] == sp1;
    DigitsThenParenOf(digits, c);
    SpacesThenCountOf(sp2, count);
  }

  lemma DigitsThenParenOf(digits: string, c: string)
    requires |digits| > 0 && AllDigits(digits)
    ensures DigitsThenParen(digits + [')'] + c) == Some((digits, c))
  {
    var b := digits + [')'] + c;
    assert b == digits + ([')'] + c);
    DigitRunOf(digits, [')'] + c);
    assert b[..|digits|] == digits && b[|digits| + 1..] == c;
  }

  lemma SpacesThenCountOf(sp: string, count: string)
    requires |sp| > 0 && forall j :: 0 <= j < |sp| ==> IsSpace(sp[j])
    requires |count| > 0 && AllDigits(count)
    ensures SpacesThenCount(sp + count) == Some(count)
  {
    SpaceRunOf(sp, count);
    assert (sp + count)[|sp|..] == count;
  }

  /** The tail pattern cannot fit where "(N" does not begin. */
  lemma NoTailAt(s: string, q: nat)
    requires q + 1 < |s| && (s[q] != '(' || s[q + 1] != 'N')
    ensures MatchTail(s[q..]).None?
  {
    if |s[q..]| >= 6 {
      assert s[q..][..6][0] == s[q] && s[q..][..6][1] == s[q + 1];
    }
  }

  /**
   * The converse of LayerRow's contract: a word, then text in which no "(N"
   * begins, then a tail of the pattern, is read as the word, the tail's
   * shape and its count.
   */
  lemma LayerRowOf(s: string, name: string, middle: string, sp1: string, digits: string, sp2: string, count: string)
    requires |name| > 0 && forall j :: 0 <= j < |name| ==> IsWordChar(name[j])
    requires middle == [] || !IsWordChar(middle[0])
    requires forall q :: 0 <= q < |middle| - 1 ==> middle[q] != '(' || middle[q + 1] != 'N'
    requires forall j :: 0 <= j < |sp1| ==> IsSpace(sp1[j])
    requires |digits| > 0 && AllDigits(digits)
    requires |sp2| > 0 && forall j :: 0 <= j < |sp2| ==> IsSpace(sp2[j])
    requires |count| > 0 && AllDigits(count)
    requires s == name + middle + ("(None," + sp1 + digits + [')'] + sp2 + count)
    ensures LayerRow(s) == Some([name, "None," + sp1 + digits, count])
  {
    var tail := "(None," + sp1 + digits + [')'] + sp2 + count;
    assert s == name + (middle + tail);
    WordRunOf(name, middle + tail);
    var from, to := |name|, |name| + |middle|;
    forall q | from <= q < to ensures MatchTail(s[q..]).None? {
      assert s[q] == middle[q - from];
      if q + 1 < to {
        assert s[q + 1] == middle[q + 1 - from];
      } else {
        assert s[q + 1] == tail[0];
      }
      NoTailAt(s, q);
    }
    assert s[to..] == tail;
    MatchTailOf(sp1, digits, sp2, count);
    FirstFitHere(s, to, MatchTail);
    FirstFitSkips(s, from, to, MatchTail);
    assert s[..from] == name;
  }

  /** A typical Keras layer line is read as name, output shape and count. */
  lemma DenseLayerRow(line: string)
    requires line == "dense (Dense) (None, 64) 2624"
    ensures LayerRow(line) == Some(["dense", "None, 64", "2624"])
  {
    DensePieces(line);
    LayerRowOf(line, "dense", " (Dense) ", " ", "64", " ", "2624");
    DenseShapeText();
  }

  /** The shape group of the dense line, spelled as LayerRowOf builds it. */
  lemma DenseShapeText()
    ensures "None," + " " + "64" == "None, 64"
  {
  }

  /** The dense line cut into the pieces LayerRowOf asks for. */
  lemma DensePieces(line: string)
    requires line == "dense (Dense) (None, 64) 2624"
    ensures line == "dense" + " (Dense) " + ("(None," + " " + "64" + [')'] + " " + "2624")
    ensures forall q :: 0 <= q < |" (Dense) "| - 1 ==> " (Dense) "[q] != '(' || " (Dense) "[q + 1] != 'N'
    ensures forall j :: 0 <= j < |"dense"| ==> IsWordChar("dense"[j])
  {
  }

  // ------------------------------------------------------ scanning the lines

  /** Some line satisfies p. */
  predicate AnyLine(lines: seq<string>, p: string -> bool) {
    lines != [] && (AnyLine(lines[..|lines| - 1], p) || p(lines[|lines| - 1]))
  }

  /** The recursive test agrees with "some line satisfies p". */
  lemma {:induction false} AnyLineIff(lines: seq<string>, p: string -> bool)
    ensures AnyLine(lines, p) <==> exists k :: 0 <= k < |lines| && p(lines[k])
  {
    if lines != [] {
      var init := lines[..|lines| - 1];
      AnyLineIff(init, p);
      if AnyLine(init, p) {
        var k :| 0 <= k < |init| && p(init[k]);
        assert lines[k] == init[k];
      } else if p(lines[|lines| - 1]) {
        assert 0 <= |lines| - 1 < |lines| && p(lines[|lines| - 1]);
      } else {
        forall k | 0 <= k < |lines| ensures !p(lines[k]) {
          if k < |init| { assert lines[k] == init[k]; }
        }
      }
    }
  }

  /** f of the last line satisfying p, if any. */
  function LastWith(lines: seq<string>, p: string -> bool, f: string -> string): (r: Option<string>)
    ensures r.None? <==> !AnyLine(lines, p)
  {
    if lines == [] then None
    else
      var last := lines[|lines| - 1];
      if p(last) then Some(f(last)) else LastWith(lines[..|lines| - 1], p, f)
  }

  /**
   * LastWith picks a line that satisfies p and that no later line
   * satisfying p follows: the last write of the loop wins.
   */
  lemma {:induction false} LastWithIsLast(lines: seq<string>, p: string -> bool, f: string -> string)
    requires AnyLine(lines, p)
    ensures exists k :: (0 <= k < |lines| && p(lines[k]) && LastWith(lines, p, f) == Some(f(lines[k]))
                         && forall j :: k < j < |lines| ==> !p(lines[j]))
  {
    var last := |lines| - 1;
    if !p(lines[last]) {
      var init := lines[..last];
      LastWithIsLast(init, p, f);
      var k :| 0 <= k < |init| && p(init[k]) && LastWith(init, p, f) == Some(f(init[k]))
        && forall j :: k < j < |init| ==> !p(init[j]);
      assert lines[k] == init[k];
      forall j | k < j < |lines| ensures !p(lines[j]) {
        if j < last {
          assert lines[j] == init[j];
        }
      }
    }
  }

  /** The captures of f over the lines it accepts, in order. */
  function Collect(lines: seq<string>, f: string -> Option<seq<string>>): (rows: seq<seq<string>>)
    ensures |rows| <= |lines|
  {
    if lines == [] then []
    else
      var rest := Collect(lines[..|lines| - 1], f);
      match f(lines[|lines| - 1])
      case Some(row) => rest + [row]
      case None => rest
  }

  /**
   * One more line: it satisfies p, becomes the last line satisfying p, or
   * leaves the answer of the shorter prefix standing.
   */
  lemma ScanStep(lines: seq<string>, i: nat, p: string -> bool, f: string -> string)
    requires i < |lines|
    ensures AnyLine(lines[..i + 1], p) == (AnyLine(lines[..i], p) || p(lines[i]))
    ensures LastWith(lines[..i + 1], p, f) == if p(lines[i]) then Some(f(lines[i])) else LastWith(lines[..i], p, f)
  {
    assert lines[..i + 1][..i] == lines[..i];
  }

  /** One more line adds its capture, if it has one, at the end. */
  lemma CollectStep(lines: seq<string>, i: nat, f: string -> Option<seq<string>>)
    requires i < |lines|
    ensures f(lines[i]).Some? ==> Collect(lines[..i + 1], f) == Collect(lines[..i], f) + [f(lines[i]).value]
    ensures f(lines[i]).None? ==> Collect(lines[..i + 1], f) == Collect(lines[..i], f)
  {
    assert lines[..i + 1][..i] == lines[..i];
  }

  /** Every capture in Collect comes from f: layer rows keep their three groups. */
  lemma {:induction false} CollectLayerRows(lines: seq<string>)
    ensures forall k :: 0 <= k < |Collect(lines, RowOf)| ==> |Collect(lines, RowOf)[k]| == 3
  {
    if lines != [] {
      CollectLayerRows(lines[..|lines| - 1]);
    }
  }

  // ------------------------------------------------------ the whole text

  /** A "Model:" line without a double quote. */
  predicate IsUnquotedModelLine(line: string) {
    IsModelLine(line) && '"' !in line
  }

  /** Some "Model:" line has no double quote to take the name from. */
  predicate HasUnquotedModelLine(lines: seq<string>) {
    AnyLine(lines, IsUnquotedModelLine)
  }

  /** The name a "Model:" line gives (an unquoted one fails before it is used). */
  function ModelNameOf(line: string): (r: string)
    ensures '"' !in r
  {
    if '"' in line then QuotedName(line) else ""
  }

  predicate CarriesTotal(line: string) { Contains(line, TotalKey) }
  predicate CarriesTrainable(line: string) { Contains(line, TrainableKey) }
  predicate CarriesNonTrainable(line: string) { Contains(line, NonTrainableKey) }

  /** The layer row a line gives once stripped, if it matches the pattern. */
  function RowOf(line: string): Option<seq<string>> {
    LayerRow(Strip(line))
  }

  function OrElse(o: Option<string>, fallback: string): string {
    if o.Some? then o.value else fallback
  }

  /**
   * What the summary says when no "Model:" line is unquoted: each field as the
   * last line carrying it gives it, "Unknown" and "0" where no line does, and
   * the rows of every line matching the layer pattern, in order.
   */
  function Summarize(lines: seq<string>): Summary {
    Summary(OrElse(LastWith(lines, IsModelLine, ModelNameOf), "Unknown"),
            OrElse(LastWith(lines, CarriesTotal, ValueAfterColon), "0"),
            OrElse(LastWith(lines, CarriesTrainable, ValueAfterColon), "0"),
            OrElse(LastWith(lines, CarriesNonTrainable, ValueAfterColon), "0"),
            Collect(lines, RowOf))
  }

  /**
   * `parse_model_summary`: fails exactly when some "Model:" line has no double
   * quote, naming the first such line; otherwise the summary of the text's lines.
   */
  method ParseModelSummary(text: string) returns (r: Result<Summary, ParseError>)
    ensures r.Err? <==> HasUnquotedModelLine(SplitLines(text))
    ensures r.Err? ==> FirstUnquoted(SplitLines(text), r.error.lineIndex)
    ensures r.Ok? ==> r.value == Summarize(SplitLines(text))
  {
    r := ParseLines(SplitLines(text));
  }

  /** Line i is the first unquoted "Model:" line. */
  predicate FirstUnquoted(lines: seq<string>, i: nat) {
    i < |lines| && IsUnquotedModelLine(lines[i]) && !HasUnquotedModelLine(lines[..i])
  }

  /** The loop of `parse_model_summary` over the lines of the summary text. */
  method ParseLines(lines: seq<string>) returns (r: Result<Summary, ParseError>)
    ensures r.Err? <==> HasUnquotedModelLine(lines)
    ensures r.Err? ==> FirstUnquoted(lines, r.error.lineIndex)
    ensures r.Ok? ==> r.value == Summarize(lines)
  {
    var modelName := "Unknown";
    var totalParams, trainableParams, nonTrainableParams := "0", "0", "0";
    var rows: seq<seq<string>> := [];
    for i := 0 to |lines|
      invariant !HasUnquotedModelLine(lines[..i])
      invariant modelName == OrElse(LastWith(lines[..i], IsModelLine, ModelNameOf), "Unknown")
      invariant totalParams == OrElse(LastWith(lines[..i], CarriesTotal, ValueAfterColon), "0")
      invariant trainableParams == OrElse(LastWith(lines[..i], CarriesTrainable, ValueAfterColon), "0")
      invariant nonTrainableParams == OrElse(LastWith(lines[..i], CarriesNonTrainable, ValueAfterColon), "0")
      invariant rows == Collect(lines[..i], RowOf)
    {
      var line := lines[i];
      ScanStep(lines, i, IsUnquotedModelLine, ModelNameOf);
      if StartsWith(Strip(line), "Model:") {
        if '"' !in line {
          PrefixStaysUnquoted(lines, i + 1);
          return Err(UnquotedModelLine(i));
        }
        modelName := Split(line, '"', -1)[1];
      }
      ScanStep(lines, i, IsModelLine, ModelNameOf);
      totalParams := if Contains(line, TotalKey) then ValueAfterColon(line) else totalParams;
      ScanStep(lines, i, CarriesTotal, ValueAfterColon);
      trainableParams := if Contains(line, TrainableKey) then ValueAfterColon(line) else trainableParams;
      ScanStep(lines, i, CarriesTrainable, ValueAfterColon);
      nonTrainableParams := if Contains(line, NonTrainableKey) then ValueAfterColon(line) else nonTrainableParams;
      ScanStep(lines, i, CarriesNonTrainable, ValueAfterColon);
      var row := RowOf(line);
      CollectStep(lines, i, RowOf);
      rows := if row.Some? then rows + [row.value] else rows;
    }
    assert lines[..|lines|] == lines;
    return Ok(Summary(modelName, totalParams, trainableParams, nonTrainableParams, rows));
  }

  /** A prefix that holds an unquoted "Model:" line keeps it in every longer prefix. */
  lemma PrefixStaysUnquoted(lines: seq<string>, i: nat)
    requires i <= |lines| && HasUnquotedModelLine(lines[..i])
    ensures HasUnquotedModelLine(lines)
  {
    AnyLineIff(lines[..i], IsUnquotedModelLine);
    AnyLineIff(lines, IsUnquotedModelLine);
    var k :| 0 <= k < i && IsUnquotedModelLine(lines[..i][k]);
    assert lines[k] == lines[..i][k];
  }

  /** With no line carrying a field, every default survives. */
  lemma EmptySummaryDefaults()
    ensures Summarize([]) == Summary("Unknown", "0", "0", "0", [])
  {
  }

  /**
   * The keys are matched with their case: a "Non-trainable params:" line
   * sets only the non-trainable count, not the trainable one.
   */
  lemma NonTrainableLineIsNotTrainable(count: string)
    requires AllDigits(count)
    ensures !Contains("Non-trainable params: " + count, TrainableKey)
    ensures Contains("Non-trainable params: " + count, NonTrainableKey)
  {
    var line := "Non-trainable params: " + count;
    assert StartsWith(line, NonTrainableKey);
    forall i | 0 <= i <= |line| - |TrainableKey|
      ensures !OccursAt(line, TrainableKey, i)
    {
      if i >= 22 {
        assert line[i] == count[i - 22];
      }
      assert line[i] != 'T';
    }
    ContainsIffOccurs(line, TrainableKey);
  }
}
