/**
 * The pieces of the C runtime that the camera and modem code lean on, stated
 * over Dafny sequences: fixed-width integers, NUL-terminated strings, strstr,
 * strtok and the "%u"/"%lu" decimal conversion of sprintf.
 */
module CText {

  datatype Option<+T> = None | Some(value: T)

  /** An unsigned 8-bit value (uint8_t, a byte of a mapped frame buffer). */
  type byte = x: int | 0 <= x < 0x100

  /** An unsigned 32-bit value (__u32 in the kernel headers, unsigned int). */
  type u32 = x: int | 0 <= x < 0x1_0000_0000

  const NUL: char := '\0'

  /** The characters of a NUL-terminated C string, without its terminator. */
  type CString = s: seq<char> | NUL !in s

  /** Largest value of a C `int` on the targets of this program. */
  const INT_MAX: int := 0x7FFF_FFFF

  /**
   * The string a `char *` denotes when it points at the start of `s`: every
   * character before the first NUL (all of `s` when it holds no NUL).
   */
  function CStr(s: seq<char>): (r: seq<char>)
    ensures NUL !in r
    ensures |r| <= |s| && r == s[..|r|]
    ensures |r| < |s| ==> s[|r|] == NUL
  {
    if |s| == 0 || s[0] == NUL then [] else [s[0]] + CStr(s[1..])
  }

  /** Writing a NUL right after `c` makes the buffer denote exactly the C string of `c`. */
  lemma {:induction false} CStrOfTerminated(buf: seq<char>, c: seq<char>)
    requires |c| < |buf| && buf[..|c|] == c && buf[|c|] == NUL
    ensures CStr(buf) == CStr(c)
  {
    if |c| == 0 {
    } else if c[0] == NUL {
    } else {
      assert buf[1..][..|c[1..]|] == c[1..];
      CStrOfTerminated(buf[1..], c[1..]);
    }
  }

  /** Concatenation is associative; stated once so provers need not rediscover it in large contexts. */
  lemma AppendAssoc<T>(a: seq<T>, b: seq<T>, c: seq<T>)
    ensures a + (b + c) == (a + b) + c
  {
  }

  // ---------------------------------------------------------------------------
  // strstr

  ghost predicate OccursAt(hay: seq<char>, needle: seq<char>, i: int)
  {
    0 <= i && i + |needle| <= |hay| && hay[i..i + |needle|] == needle
  }

  /** `needle` is a substring of `hay`: the reference meaning of a non-NULL strstr. */
  ghost predicate Contains(hay: seq<char>, needle: seq<char>)
  {
    exists i :: OccursAt(hay, needle, i)
  }

  /**
   * strstr: the position of the first occurrence of `needle` in `hay` at or
   * after `from`, or None (a NULL result).
   */
  function Strstr(hay: seq<char>, needle: seq<char>, from: nat := 0): (r: Option<nat>)
    requires from <= |hay|
    ensures r.Some? ==> from <= r.value && OccursAt(hay, needle, r.value)
    ensures r.Some? ==> forall j :: from <= j < r.value ==> !OccursAt(hay, needle, j)
    ensures r.None? ==> forall j :: from <= j ==> !OccursAt(hay, needle, j)
    decreases |hay| - from
  {
    if from + |needle| > |hay| then None
    else if hay[from..from + |needle|] == needle then Some(from)
    else if from == |hay| then None
    else Strstr(hay, needle, from + 1)
  }

  /** strstr answers non-NULL exactly when the needle occurs. */
  lemma StrstrFindsIff(hay: seq<char>, needle: seq<char>)
    ensures Strstr(hay, needle).Some? <==> Contains(hay, needle)
  {
    var r := Strstr(hay, needle);
    if r.Some? {
      assert OccursAt(hay, needle, r.value);
    }
  }

  // ---------------------------------------------------------------------------
  // strtok

  /** One strtok call: a token and the saved position after it, or NULL. */
  datatype Token = NoToken | Token(token: seq<char>, rest: seq<char>)

  /** strspn: the number of leading characters of `s` that are delimiters. */
  function SpanOf(s: seq<char>, delims: seq<char>): (n: nat)
    ensures n <= |s|
    ensures forall i :: 0 <= i < n ==> s[i] in delims
    ensures n < |s| ==> s[n] !in delims
  {
    if |s| == 0 || s[0] !in delims then 0 else 1 + SpanOf(s[1..], delims)
  }

  /** strcspn: the number of leading characters of `s` that are not delimiters. */
  function CSpanOf(s: seq<char>, delims: seq<char>): (n: nat)
    ensures n <= |s|
    ensures forall i :: 0 <= i < n ==> s[i] !in delims
    ensures n < |s| ==> s[n] in delims
  {
    if |s| == 0 || s[0] in delims then 0 else 1 + CSpanOf(s[1..], delims)
  }

  /**
   * strtok on the string `s` that its saved pointer designates: skip the
   * leading delimiters; at the end of the string there is no token; otherwise
   * the token runs to the next delimiter, which is overwritten with NUL, and
   * the saved pointer moves past it (or stays at the end of the string).
   */
  function Strtok(s: seq<char>, delims: seq<char>): (r: Token)
    ensures r.Token? ==> r.token != [] && |r.rest| < |s|
    ensures r.Token? ==> forall c :: c in r.token ==> c !in delims
    ensures r.NoToken? <==> forall c :: c in s ==> c in delims
  {
    var skip := SpanOf(s, delims);
    if skip == |s| then
      assert forall c :: c in s ==> c in delims by {
        forall c | c in s ensures c in delims {
          var i :| 0 <= i < |s| && s[i] == c;
        }
      }
      NoToken
    else
      var e := skip + CSpanOf(s[skip..], delims);
      assert forall c :: c in s[skip..e] ==> c !in delims by {
        forall c | c in s[skip..e] ensures c !in delims {
          var i :| 0 <= i < e - skip && s[skip..e][i] == c;
          assert s[skip..][i] == c;
        }
      }
      if e == |s| then Token(s[skip..], []) else Token(s[skip..e], s[e + 1..])
  }

  /**
   * What a token is: `s` is a run of delimiters, then the token, then either
   * the end of the string (and the saved rest is empty) or one delimiter,
   * overwritten by strtok, followed by the saved rest.
   */
  lemma StrtokSplits(s: seq<char>, delims: seq<char>)
    requires Strtok(s, delims).Token?
    ensures var r := Strtok(s, delims);
      var k := SpanOf(s, delims);
      var e := k + |r.token|;
      e <= |s| && s[k..e] == r.token &&
      ((e == |s| && r.rest == []) || (e < |s| && s[e] in delims && s[e + 1..] == r.rest))
  {
    var r := Strtok(s, delims);
    var skip := SpanOf(s, delims);
    var e := skip + CSpanOf(s[skip..], delims);
    if e == |s| {
      assert r == Token(s[skip..], []);
    } else {
      assert r == Token(s[skip..e], s[e + 1..]);
      assert |r.token| == e - skip;
      assert s[e] == s[skip..][e - skip];
    }
  }

  // ---------------------------------------------------------------------------
  // "%u" and "%lu"

  function DigitChar(d: nat): (c: char)
    requires d < 10
    ensures '0' <= c <= '9' && c as int - '0' as int == d
  {
    (d + '0' as int) as char
  }

  /** sprintf's "%u" rendering of `n`: decimal digits, no sign, no leading zeros. */
  function Decimal(n: nat): (s: seq<char>)
    ensures |s| >= 1 && forall i :: 0 <= i < |s| ==> '0' <= s[i] <= '9'
    ensures |s| > 1 ==> s[0] != '0'
    ensures NUL !in s
  {
    if n < 10 then [DigitChar(n)] else Decimal(n / 10) + [DigitChar(n % 10)]
  }

  /** The value a string of decimal digits denotes. */
  function DecimalValue(s: seq<char>): nat
    requires forall i :: 0 <= i < |s| ==> '0' <= s[i] <= '9'
  {
    if s == [] then 0 else 10 * DecimalValue(s[..|s| - 1]) + (s[|s| - 1] as int - '0' as int)
  }

  /** "%u" is faithful: the digits it prints denote the number printed. */
  lemma {:induction false} DecimalRoundTrip(n: nat)
    ensures DecimalValue(Decimal(n)) == n
  {
    if n >= 10 {
      var s := Decimal(n);
      assert s[..|s| - 1] == Decimal(n / 10);
      DecimalRoundTrip(n / 10);
    }
  }
}
