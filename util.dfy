/**
 * has_alphanumeric of util.c. Its loop tests `*str` but never advances
 * `str`, so it answers from the first character alone, or not at all. The
 * loop is modelled as written with a bound on the number of iterations.
 * Beside it is the loop the header describes, one that walks the string.
 */
module Util {
  import opened CText

  /** isalnum in the C locale. */
  predicate IsAlnum(c: char)
  {
    ('0' <= c <= '9') || ('A' <= c <= 'Z') || ('a' <= c <= 'z')
  }

  /** What the header promises to detect: some character of the string is alphanumeric. */
  ghost predicate ContainsAlnum(s: seq<char>)
  {
    exists i :: 0 <= i < |s| && IsAlnum(s[i])
  }

  /** How a call ends within a bound on loop iterations: a return value, or a loop still running. */
  datatype Outcome = Returned(value: int) | StillLooping

  /**
   * What the loop as written does in `fuel` iterations: the empty string
   * returns 0, and otherwise each iteration tests the same first character,
   * so an alphanumeric one returns 1 on the first iteration and any other
   * keeps the loop running for ever.
   */
  function AsWritten(str: seq<char>, fuel: nat): Outcome
  {
    if str == [] then Returned(0)
    else if fuel == 0 || !IsAlnum(str[0]) then StillLooping
    else Returned(1)
  }

  /** has_alphanumeric as written, cut off after `fuel` iterations. */
  method HasAlphanumeric(str: CString, fuel: nat) returns (r: Outcome)
    ensures r == AsWritten(str, fuel)
  {
    var hasAlnum := 0;
    var steps := 0;
    while |str| > 0
      invariant steps <= fuel && hasAlnum == 0
      invariant steps > 0 ==> |str| > 0 && !IsAlnum(str[0])
      decreases fuel - steps
    {
      if steps == fuel {
        return StillLooping;
      }
      steps := steps + 1;
      if IsAlnum(str[0]) {
        hasAlnum := 1;
        break;
      }
    }
    return Returned(hasAlnum);
  }

  /**
   * Whenever the loop as written returns, its answer is the one the header
   * promises; it returns for every bound exactly when the string is empty
   * or starts with an alphanumeric character.
   */
  lemma AsWrittenAnswersCorrectlyWhenItReturns(str: seq<char>, fuel: nat)
    ensures AsWritten(str, fuel).Returned? ==>
              AsWritten(str, fuel).value == (if ContainsAlnum(str) then 1 else 0)
    ensures fuel >= 1 ==> (AsWritten(str, fuel).Returned? <==> str == [] || IsAlnum(str[0]))
  {
    if str != [] && IsAlnum(str[0]) {
      assert ContainsAlnum(str) by {
        assert IsAlnum(str[0]);
      }
    }
  }

  /** "-a" holds an alphanumeric character, yet the loop as written never returns on it. */
  lemma LeadingSymbolNeverReturns(fuel: nat)
    ensures ContainsAlnum("-a")
    ensures AsWritten("-a", fuel) == StillLooping
  {
    assert IsAlnum("-a"[1]);
  }

  /** The intended function: scan the string, one character per iteration, for an alphanumeric one. */
  method HasAlphanumericIntended(str: CString) returns (r: int)
    ensures r == 0 || r == 1
    ensures r == 1 <==> ContainsAlnum(str)
  {
    var hasAlnum := 0;
    var cursor := 0;
    while cursor < |str|
      invariant cursor <= |str| && hasAlnum == 0
      invariant forall i :: 0 <= i < cursor ==> !IsAlnum(str[i])
    {
      if IsAlnum(str[cursor]) {
        hasAlnum := 1;
        break;
      }
      cursor := cursor + 1;
    }
    return hasAlnum;
  }
}
