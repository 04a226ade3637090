/**
 * The severity mapper of `common/detection_utlis.py`: a predicted attack
 * label decides one of three severity strings.
 */
module Severity {
  import opened Strings

  const Low := "Low"
  const Medium := "Medium"
  const High := "High"

  predicate IsLevel(s: string) {
    s == Low || s == Medium || s == High
  }

  /** Labels the mapper names explicitly as high severity. */
  predicate IsHighLabel(lowered: string) {
    lowered == "dos" || lowered == "r2l" || lowered == "u2r"
  }

  /**
   * `detect_severity(attack)`: total over all strings and blind to case.
   * Only "normal" is Low, only dos/r2l/u2r are High; "probe" and every label the
   * table does not list are Medium.
   */
  function DetectSeverity(attack: string): (r: string)
    ensures IsLevel(r)
    ensures r == Low <==> Lower(attack) == "normal"
    ensures r == High <==> IsHighLabel(Lower(attack))
    ensures r == Medium <==> Lower(attack) != "normal" && !IsHighLabel(Lower(attack))
  {
    var a := Lower(attack);
    if a == "normal" then Low
    else if a == "probe" then Medium
    else if IsHighLabel(a) then High
    else Medium
  }

  /** The severity depends on the lower-cased label alone. */
  lemma DetectSeverityCaseInsensitive(a: string, b: string)
    requires Lower(a) == Lower(b)
    ensures DetectSeverity(a) == DetectSeverity(b)
  {
  }

  /** Lower-casing the label first changes nothing. */
  lemma DetectSeverityOfLowered(a: string)
    ensures DetectSeverity(Lower(a)) == DetectSeverity(a)
  {
    LowerIdempotent(a);
  }

  /** The fixed table, spelled out on the label vocabulary it lists, in any case. */
  lemma DetectSeverityTable()
    ensures DetectSeverity("normal") == Low && DetectSeverity("Normal") == Low
    ensures DetectSeverity("probe") == Medium && DetectSeverity("Probe") == Medium
    ensures DetectSeverity("dos") == High && DetectSeverity("DOS") == High && DetectSeverity("DoS") == High
    ensures DetectSeverity("r2l") == High && DetectSeverity("R2L") == High
    ensures DetectSeverity("u2r") == High && DetectSeverity("U2R") == High
    ensures DetectSeverity("mystery_attack") == Medium
  {
    assert Lower("Normal") == "normal";
    assert Lower("Probe") == "probe";
    assert Lower("DOS") == "dos";
    assert Lower("DoS") == "dos";
    assert Lower("R2L") == "r2l";
    assert Lower("U2R") == "u2r";
    assert Lower("mystery_attack") == "mystery_attack";
  }
}
