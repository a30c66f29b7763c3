/** The text the generator writes for constants and blocks, line by line. */
module Rendering {
  import opened Identifiers
  import opened Categories

  const SUMMARY_OPEN: string := "        /// <summary>"
  const SUMMARY_CLOSE: string := "        /// </summary>"

  /** The wording of a constant's documentation line, by kind. */
  function Description(kind: Kind): string {
    match kind
    case Tag => "Name of tag"
    case SortingLayer => "ID of sorting layer"
    case LayerIndex => "Index of layer"
    case LayerMask => "Bitmask of layer"
    case Scene => "ID of scene"
    case Axis => "Input axis"
    case MixerParam => "Audio mixer exposed parameter"
    case AnimatorParam => "Animator controller exposed parameter"
  }

  /** The middle line of the documentation comment: it quotes the name
      before sanitising. */
  function DocLine(kind: Kind, name: string): (line: string)
    ensures "        /// " <= line
    ensures |name| + 2 <= |line| && line[|line| - |name| - 2 .. |line| - 2] == name
    ensures |name| + 3 <= |line| && line[|line| - |name| - 3] == '\''
    ensures line[|line| - 2..] == "'."
  {
    "        /// " + Description(kind) + " '" + name + "'."
  }

  /** The three comment lines written before a constant. */
  function DocComment(kind: Kind, name: string): seq<string> {
    [SUMMARY_OPEN, DocLine(kind, name), SUMMARY_CLOSE]
  }

  predicate AllDigits(s: string) {
    forall i :: 0 <= i < |s| ==> IsAsciiDigit(s[i])
  }

  /** The number a string of decimal digits denotes. */
  function DecimalValue(s: string): nat
    requires AllDigits(s)
  {
    if s == [] then 0
    else 10 * DecimalValue(s[..|s| - 1]) + (s[|s| - 1] as int - '0' as int)
  }

  function Digit(d: nat): (c: char)
    requires d < 10
    ensures IsAsciiDigit(c) && c as int - '0' as int == d
  {
    (48 + d) as char
  }

  /** The decimal text of a natural number: digits only, no leading zero,
      and denoting the number. */
  function NatToString(n: nat): (s: string)
    ensures |s| > 0 && AllDigits(s)
    ensures |s| == 1 || s[0] != '0'
    ensures DecimalValue(s) == n
  {
    if n < 10 then [Digit(n)]
    else
      var prefix := NatToString(n / 10);
      var s := prefix + [Digit(n % 10)];
      assert s[..|s| - 1] == prefix;
      s
  }

  /** The decimal text of an integer, with a leading `-` when negative. */
  function IntToString(n: int): (s: string)
    ensures |s| > 0
    ensures (s[0] == '-') <==> n < 0
    ensures n < 0 ==> AllDigits(s[1..]) && DecimalValue(s[1..]) == -n
    ensures n >= 0 ==> AllDigits(s) && DecimalValue(s) == n
    ensures n >= 0 ==> |s| == 1 || s[0] != '0'
    ensures n < 0 ==> |s| == 2 || s[1] != '0'
  {
    if n < 0 then
      var digits := NatToString(-n);
      assert ("-" + digits)[1..] == digits;
      "-" + digits
    else NatToString(n)
  }

  /** The declaration line: string constants quote their value, integer
      constants give it in decimal, mask constants as a shift of 1. */
  function Declaration(c: Constant): (line: string)
    ensures "        public const " <= line
    ensures line[|line| - 1] == ';'
  {
    var (typeName, literal) := match c.value
      case Text(t) => ("string", "\"" + t + "\"")
      case Number(n) => ("int", IntToString(n))
      case Shift(b) => ("int", "1 << " + NatToString(b));
    "        public const " + (typeName + " " + c.identifier + " = " + literal + ";")
  }

  /** A constant: its documentation comment, then its declaration. */
  function Render(c: Constant): seq<string> {
    DocComment(c.kind, c.name) + [Declaration(c)]
  }

  /** The constants of a block, one after the other. */
  function RenderAll(cs: seq<Constant>): seq<string> {
    if cs == [] then []
    else RenderAll(cs[..|cs| - 1]) + Render(cs[|cs| - 1])
  }

  lemma {:induction false} RenderAllLength(cs: seq<Constant>)
    ensures |RenderAll(cs)| == 4 * |cs|
  {
    if cs != [] {
      RenderAllLength(cs[..|cs| - 1]);
    }
  }

  /** The four lines of the constant at `k`. */
  lemma {:induction false} RenderAllAt(cs: seq<Constant>, k: nat)
    requires k < |cs|
    ensures |RenderAll(cs)| == 4 * |cs|
    ensures RenderAll(cs)[4 * k .. 4 * k + 4] == Render(cs[k])
  {
    var n := |cs| - 1;
    var prev := RenderAll(cs[..n]);
    var last := Render(cs[n]);
    RenderAllLength(cs[..n]);
    assert |last| == 4;
    assert RenderAll(cs) == prev + last;
    if k < n {
      RenderAllAt(cs[..n], k);
      assert cs[..n][k] == cs[k];
      assert (prev + last)[4 * k .. 4 * k + 4] == prev[4 * k .. 4 * k + 4];
    } else {
      assert 4 * k == |prev|;
      assert (prev + last)[|prev|..] == last;
    }
  }

  /** Every constant takes four lines: `/// <summary>`, the line quoting
      its unsanitised name, `/// </summary>`, and its declaration. */
  lemma RenderAllLayout(cs: seq<Constant>)
    ensures |RenderAll(cs)| == 4 * |cs|
    ensures forall k :: 0 <= k < |cs| ==>
      && RenderAll(cs)[4 * k] == SUMMARY_OPEN
      && RenderAll(cs)[4 * k + 1] == DocLine(cs[k].kind, cs[k].name)
      && RenderAll(cs)[4 * k + 2] == SUMMARY_CLOSE
      && RenderAll(cs)[4 * k + 3] == Declaration(cs[k])
  {
    RenderAllLength(cs);
    forall k | 0 <= k < |cs|
      ensures && RenderAll(cs)[4 * k] == SUMMARY_OPEN
              && RenderAll(cs)[4 * k + 1] == DocLine(cs[k].kind, cs[k].name)
              && RenderAll(cs)[4 * k + 2] == SUMMARY_CLOSE
              && RenderAll(cs)[4 * k + 3] == Declaration(cs[k])
    {
      RenderAllAt(cs, k);
      LinesOfRender(RenderAll(cs), 4 * k, cs[k]);
    }
  }

  lemma LinesOfRender(lines: seq<string>, start: nat, c: Constant)
    requires start + 4 <= |lines| && lines[start .. start + 4] == Render(c)
    ensures && lines[start] == SUMMARY_OPEN
            && lines[start + 1] == DocLine(c.kind, c.name)
            && lines[start + 2] == SUMMARY_CLOSE
            && lines[start + 3] == Declaration(c)
  {
    var four := lines[start .. start + 4];
    assert four[0] == lines[start] && four[1] == lines[start + 1];
    assert four[2] == lines[start + 2] && four[3] == lines[start + 3];
  }

  /** Lines written after some constants, then a constant's comment and
      declaration, are those lines followed by the constants with it added. */
  lemma RenderNext(head: seq<string>, cs: seq<Constant>, c: Constant)
    ensures head + RenderAll(cs) + DocComment(c.kind, c.name) + [Declaration(c)] == head + RenderAll(cs + [c])
  {
    assert (cs + [c])[..|cs|] == cs;
  }

  /** Lines appended in three parts are the lines followed by the three
      parts together. */
  lemma Regrouped(lines: seq<string>, a: seq<string>, b: seq<string>, c: seq<string>)
    ensures lines + a + b + c == lines + (a + b + c)
  {
  }

  /** The same for two parts. */
  lemma RegroupedTwo(lines: seq<string>, a: seq<string>, b: seq<string>)
    ensures lines + a + b == lines + (a + b)
  {
  }

  /** The two lines that open a category's class. */
  function ClassOpening(className: string): seq<string> {
    ["    public static class " + className, "    {"]
  }

  /** The line that closes a class, and the blank line after it, which the
      last class does without. */
  function ClassClosing(blankAfter: bool): seq<string> {
    if blankAfter then ["    }", ""] else ["    }"]
  }

  const HEADER: seq<string> := [
    "// This file is auto-generated. Modifications are not saved.",
    "",
    "namespace UnityConstants",
    "{"]

  const FOOTER: seq<string> := ["}", ""]

  /** The lines of a category's class holding some constants. */
  function Block(className: string, cs: seq<Constant>, blankAfter: bool): seq<string> {
    ClassOpening(className) + RenderAll(cs) + ClassClosing(blankAfter)
  }
}
