/**
 * String helpers shared by the Go models: `strings.Join`, `strings.TrimRight`
 * with a single cut character, `strings.TrimPrefix`, `strconv.Itoa` and the
 * backend's join of the non-empty parts of a list.
 */
module Text {

  /** `strings.Join(parts, sep)`. */
  function Join(sep: string, parts: seq<string>): string
  {
    if |parts| == 0 then ""
    else if |parts| == 1 then parts[0]
    else parts[0] + sep + Join(sep, parts[1..])
  }

  lemma JoinSingle(sep: string, x: string)
    ensures Join(sep, [x]) == x
  {}

  lemma JoinPair(sep: string, x: string, y: string)
    ensures Join(sep, [x, y]) == x + sep + y
  {
    assert [x, y][1..] == [y];
  }

  /** The parts of `parts` that are not empty, in order. */
  function NonEmpty(parts: seq<string>): (r: seq<string>)
    ensures forall i :: 0 <= i < |r| ==> r[i] != ""
    ensures |r| <= |parts|
  {
    if |parts| == 0 then []
    else if parts[0] == "" then NonEmpty(parts[1..])
    else [parts[0]] + NonEmpty(parts[1..])
  }

  /** Joins the non-empty parts with `sep`, skipping empty ones. */
  function JoinNonEmpty(sep: string, parts: seq<string>): string
  {
    Join(sep, NonEmpty(parts))
  }

  /** `strings.TrimRight(s, "\x00")`: removes every trailing NUL character. */
  function TrimRightNul(s: string): (r: string)
    ensures r <= s
    ensures r == [] || r[|r| - 1] != '\0'
    ensures forall i :: |r| <= i < |s| ==> s[i] == '\0'
  {
    if |s| == 0 then s
    else if s[|s| - 1] == '\0' then TrimRightNul(s[..|s| - 1])
    else s
  }

  lemma {:induction false} TrimRightNulIdempotent(s: string)
    ensures TrimRightNul(TrimRightNul(s)) == TrimRightNul(s)
  {
    var r := TrimRightNul(s);
    assert r == [] || r[|r| - 1] != '\0';
  }

  /** `strings.TrimPrefix(s, prefix)`. */
  function TrimPrefix(s: string, prefix: string): (r: string)
    ensures prefix <= s ==> s == prefix + r
    ensures !(prefix <= s) ==> r == s
  {
    if prefix <= s then s[|prefix|..] else s
  }

  lemma TrimPrefixAfterPrefix(prefix: string, v: string)
    ensures TrimPrefix(prefix + v, prefix) == v
  {
    assert prefix <= prefix + v;
  }

  /** The decimal digit for `d`. */
  function DigitChar(d: nat): char
    requires d < 10
  {
    "0123456789"[d]
  }

  /** `strconv.Itoa` on a non-negative value. */
  function NatToString(n: nat): (r: string)
    ensures |r| >= 1
    ensures forall i :: 0 <= i < |r| ==> '0' <= r[i] <= '9'
  {
    if n < 10 then [DigitChar(n)] else NatToString(n / 10) + [DigitChar(n % 10)]
  }

  /** `strconv.Itoa` / `fmt`'s `%d`: an optional minus sign then the digits. */
  function IntToString(n: int): (r: string)
    ensures |r| >= 1
    ensures forall i :: 0 <= i < |r| ==> r[i] == '-' || '0' <= r[i] <= '9'
  {
    if n < 0 then "-" + NatToString(-n) else NatToString(n)
  }

  /** Number of occurrences of `c` in `s`. */
  function Count(s: string, c: char): nat
  {
    if |s| == 0 then 0 else (if s[0] == c then 1 else 0) + Count(s[1..], c)
  }

  lemma {:induction false} CountConcat(a: string, b: string, c: char)
    ensures Count(a + b, c) == Count(a, c) + Count(b, c)
  {
    if |a| == 0 {
      assert a + b == b;
    } else {
      assert (a + b)[1..] == a[1..] + b;
      CountConcat(a[1..], b, c);
    }
  }

  /** A string in which `c` does not occur counts zero of it. */
  lemma {:induction false} CountAbsent(s: string, c: char)
    requires forall i :: 0 <= i < |s| ==> s[i] != c
    ensures Count(s, c) == 0
  {
    if |s| > 0 {
      CountAbsent(s[1..], c);
    }
  }

  /** Number of occurrences of `c` over all the parts. */
  function CountAll(parts: seq<string>, c: char): nat
  {
    if |parts| == 0 then 0 else Count(parts[0], c) + CountAll(parts[1..], c)
  }

  /** Joining with a separator free of `c` neither adds nor loses an occurrence of `c`. */
  lemma {:induction false} CountJoin(sep: string, parts: seq<string>, c: char)
    requires Count(sep, c) == 0
    ensures Count(Join(sep, parts), c) == CountAll(parts, c)
  {
    if |parts| == 1 {
      assert parts[1..] == [];
    } else if |parts| > 1 {
      CountJoin(sep, parts[1..], c);
      CountConcat(parts[0], sep, c);
      CountConcat(parts[0] + sep, Join(sep, parts[1..]), c);
    }
  }

  /** Parts that each hold `k` occurrences of `c` hold `k` times as many together. */
  lemma {:induction false} CountAllUniform(parts: seq<string>, c: char, k: nat)
    requires forall i :: 0 <= i < |parts| ==> Count(parts[i], c) == k
    ensures CountAll(parts, c) == k * |parts|
  {
    if |parts| > 0 {
      CountAllUniform(parts[1..], c, k);
    }
  }

  /** Appending a part to a non-empty join adds the separator and the part. */
  lemma {:induction false} JoinAppend(sep: string, parts: seq<string>, x: string)
    requires |parts| > 0
    ensures Join(sep, parts + [x]) == Join(sep, parts) + sep + x
  {
    if |parts| == 1 {
      assert (parts + [x])[1..] == [x];
    } else {
      assert (parts + [x])[1..] == parts[1..] + [x];
      JoinAppend(sep, parts[1..], x);
    }
  }
}
