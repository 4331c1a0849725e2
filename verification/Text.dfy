/** Names as they are stored: without surrounding white space. */
module Text {

  predicate IsSpace(c: char) {
    c == ' ' || '\t' <= c <= '\r'
  }

  function TrimStart(s: string): string {
    if s != "" && IsSpace(s[0]) then TrimStart(s[1..]) else s
  }

  function TrimEnd(s: string): string {
    if s != "" && IsSpace(s[|s| - 1]) then TrimEnd(s[..|s| - 1]) else s
  }

  function Trim(s: string): string {
    TrimEnd(TrimStart(s))
  }

  ghost predicate Blank(s: string) {
    forall i :: 0 <= i < |s| ==> IsSpace(s[i])
  }

  /** `middle` is what is left of `s` between its surrounding white space. */
  ghost predicate Between(s: string, before: string, middle: string, after: string) {
    && s == before + middle + after && Blank(before) && Blank(after)
    && (middle != "" ==> !IsSpace(middle[0]) && !IsSpace(middle[|middle| - 1]))
  }

  lemma {:induction false} StartsTrimmed(s: string) returns (before: string)
    ensures s == before + TrimStart(s) && Blank(before)
    ensures TrimStart(s) != "" ==> !IsSpace(TrimStart(s)[0])
  {
    before := "";
    if s != "" && IsSpace(s[0]) {
      var rest := StartsTrimmed(s[1..]);
      before := [s[0]] + rest;
      assert s == [s[0]] + s[1..];
    }
  }

  lemma {:induction false} EndsTrimmed(s: string) returns (after: string)
    ensures s == TrimEnd(s) + after && Blank(after)
    ensures TrimEnd(s) != "" ==> !IsSpace(TrimEnd(s)[|TrimEnd(s)| - 1])
  {
    after := "";
    if s != "" && IsSpace(s[|s| - 1]) {
      var rest := EndsTrimmed(s[..|s| - 1]);
      after := rest + [s[|s| - 1]];
      assert s == s[..|s| - 1] + [s[|s| - 1]];
    }
  }

  /** Trimming takes the white space around a name, all of it and nothing else. */
  lemma TrimIs(s: string) returns (before: string, after: string)
    ensures Between(s, before, Trim(s), after)
  {
    before := StartsTrimmed(s);
    after := EndsTrimmed(TrimStart(s));
  }

  /** A name is blank exactly when nothing is left of it. */
  lemma BlankIsEmpty(s: string)
    ensures Trim(s) == "" <==> Blank(s)
  {
    var before, after := TrimIs(s);
    if Trim(s) != "" {
      assert s[|before|] == Trim(s)[0];
    }
  }
}
