/** The identifier sanitiser of the constants generator (MakeSafeForCode).

    Strings are sequences of characters; the sanitiser works character by
    character, as the single character-class replacement of the source does. */
module Identifiers {

  /** The only failure the core can raise: MakeSafeForCode reads the first
      character of its argument without checking that there is one. */
  datatype Error = IndexOutOfRange

  datatype Result<T> = Success(value: T) | Failure(error: Error)

  /** The character class `[a-zA-Z0-9_]` kept by the replacement. */
  predicate IsIdentChar(c: char) {
    ('a' <= c <= 'z') || ('A' <= c <= 'Z') || ('0' <= c <= '9') || c == '_'
  }

  /** The digit test applied to the first character. The source uses the
      Unicode digit test, but only after the replacement, when the string
      holds nothing but characters of the class above; on those the two agree. */
  predicate IsAsciiDigit(c: char) {
    '0' <= c <= '9'
  }

  /** What the replacement writes in place of one character. */
  function Replacement(c: char): char {
    if IsIdentChar(c) then c else '_'
  }

  /** Every character outside the class becomes `_`; the others stay put. */
  function ReplaceDisallowed(s: string): string {
    seq(|s|, i requires 0 <= i < |s| => Replacement(s[i]))
  }

  /** A string the generator can use as a C# identifier as it stands. */
  predicate IsSafeIdentifier(s: string) {
    && |s| > 0
    && !IsAsciiDigit(s[0])
    && forall i :: 0 <= i < |s| ==> IsIdentChar(s[i])
  }

  /** MakeSafeForCode: replace the disallowed characters, then put `_` in
      front when the result starts with a digit. An empty argument fails on
      the read of its first character. */
  function MakeSafeForCode(s: string): (r: Result<string>)
    ensures r.Failure? <==> s == []
  {
    var str := ReplaceDisallowed(s);
    if |str| == 0 then Failure(IndexOutOfRange)
    else if IsAsciiDigit(str[0]) then Success("_" + str)
    else Success(str)
  }

  /** What MakeSafeForCode returns for a non-empty name: a safe identifier;
      one extra leading `_` exactly when the name starts with a digit; after
      it, every character of the name in place if it is in the class and `_`
      otherwise. */
  lemma MakeSafeForCodeSpec(s: string)
    requires s != []
    ensures var id := MakeSafeForCode(s).value;
      && IsSafeIdentifier(id)
      && |id| == |s| + (if IsAsciiDigit(s[0]) then 1 else 0)
      && (IsAsciiDigit(s[0]) ==> id[0] == '_')
      && forall i :: 0 <= i < |s| ==>
           id[|id| - |s| + i] == (if IsIdentChar(s[i]) then s[i] else '_')
  {
    var str := ReplaceDisallowed(s);
    assert IsAsciiDigit(str[0]) <==> IsAsciiDigit(s[0]);
  }

  /** The strings MakeSafeForCode leaves unchanged are exactly the safe
      identifiers. */
  lemma SafeIdentifiersAreFixedPoints(s: string)
    ensures MakeSafeForCode(s) == Success(s) <==> IsSafeIdentifier(s)
  {
    if IsSafeIdentifier(s) {
      assert ReplaceDisallowed(s) == s;
    }
    if s != [] {
      MakeSafeForCodeSpec(s);
    }
  }

  /** Sanitising a sanitised name changes nothing. */
  lemma MakeSafeForCodeIdempotent(s: string)
    requires s != []
    ensures MakeSafeForCode(MakeSafeForCode(s).value) == MakeSafeForCode(s)
  {
    SafeIdentifiersAreFixedPoints(MakeSafeForCode(s).value);
  }

  /** Sample names and the identifiers they become. */
  lemma MakeSafeForCodeExamples()
    ensures MakeSafeForCode("Player") == Success("Player")
    ensures MakeSafeForCode("Enemy!") == Success("Enemy_")
    ensures MakeSafeForCode("3Lives") == Success("_3Lives")
    ensures MakeSafeForCode("Jump Height") == Success("Jump_Height")
    ensures MakeSafeForCode("") == Failure(IndexOutOfRange)
  {
    SafeIdentifiersAreFixedPoints("Player");
    assert ReplaceDisallowed("Enemy!") == "Enemy_";
    assert ReplaceDisallowed("3Lives") == "3Lives";
    assert "_" + "3Lives" == "_3Lives";
    assert ReplaceDisallowed("Jump Height") == "Jump_Height";
  }
}
