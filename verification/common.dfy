/** Small value types and sequence helpers shared by every module of the model. */
module Common {

  /** Python's `None` / a present value. */
  datatype Option<+T> = None | Some(value: T)

  /** A computation that either yields a value or raises with a message. */
  datatype Result<+R, +E> = Success(value: R) | Failure(error: E)

  /** Python's `s[i:]` for a non-negative `i`: empty once `i` is past the end. */
  function SliceFrom<T>(s: seq<T>, i: nat): seq<T> {
    if i <= |s| then s[i..] else []
  }

  /** Python's prefix slice `s[:n]`, including the meaning of a negative `n`
      (drop the last `-n` items). */
  function SlicePrefix<T>(s: seq<T>, n: int): (r: seq<T>)
    ensures 0 <= n ==> |r| == if n < |s| then n else |s|
    ensures n < 0 ==> |r| == if -n < |s| then |s| + n else 0
    ensures r == s[..|r|]
  {
    if 0 <= n then (if n < |s| then s[..n] else s)
    else (if -n < |s| then s[..|s| + n] else [])
  }

  /** The decimal digits of a natural number, most significant first, as Python's `str(n)`. */
  function NatToDecimal(n: nat): (r: string)
    ensures |r| >= 1
    ensures forall k :: 0 <= k < |r| ==> '0' <= r[k] <= '9'
    ensures n >= 10 ==> r[0] != '0'
  {
    if n < 10 then [DigitChar(n)] else NatToDecimal(n / 10) + [DigitChar(n % 10)]
  }

  function DigitChar(d: nat): (c: char)
    requires d < 10
    ensures '0' <= c <= '9'
  {
    ('0' as int + d) as char
  }

  /** Reads a string of decimal digits back; the partner of NatToDecimal. */
  function DecimalToNat(s: string): nat
    requires forall k :: 0 <= k < |s| ==> '0' <= s[k] <= '9'
  {
    if s == [] then 0 else DecimalToNat(s[..|s| - 1]) * 10 + (s[|s| - 1] as int - '0' as int)
  }

  /** Rendering a number and reading it back gives the number. */
  lemma {:induction false} DecimalRoundTrip(n: nat)
    ensures DecimalToNat(NatToDecimal(n)) == n
  {
    if n >= 10 {
      var r := NatToDecimal(n);
      var prefix := NatToDecimal(n / 10);
      assert r[..|r| - 1] == prefix;
      DecimalRoundTrip(n / 10);
    }
  }

  /** Python's `str(i)` for an integer. */
  function IntToDecimal(i: int): string
  {
    if 0 <= i then NatToDecimal(i) else "-" + NatToDecimal(-i)
  }

  /** A list comprehension `[x for x in xs if p(x)]`. */
  function Filter<T(!new)>(xs: seq<T>, p: T -> bool): (r: seq<T>)
    ensures |r| <= |xs|
    ensures forall x :: x in r <==> x in xs && p(x)
  {
    if xs == [] then []
    else Filter(xs[..|xs| - 1], p) + (if p(xs[|xs| - 1]) then [xs[|xs| - 1]] else [])
  }

  /** The values of the present entries, in order: `[x for x in xs if x]`. */
  function Present<T>(xs: seq<Option<T>>): (r: seq<T>)
    ensures |r| <= |xs|
    ensures forall k :: 0 <= k < |r| ==> Some(r[k]) in xs
  {
    if xs == [] then []
    else
      var init := Present(xs[..|xs| - 1]);
      assert forall k :: 0 <= k < |init| ==> Some(init[k]) in xs;
      match xs[|xs| - 1]
      case Some(v) => init + [v]
      case None => init
  }

  /** Nothing is dropped exactly when every entry is present. */
  lemma {:induction false} PresentAll<T>(xs: seq<Option<T>>)
    ensures |Present(xs)| == |xs| <==> forall k :: 0 <= k < |xs| ==> xs[k].Some?
  {
    if xs != [] {
      var init := xs[..|xs| - 1];
      PresentAll(init);
      if forall k :: 0 <= k < |xs| ==> xs[k].Some? {
        assert forall k :: 0 <= k < |init| ==> init[k].Some?;
      } else {
        var k :| 0 <= k < |xs| && xs[k].None?;
        if k < |init| {
          assert init[k] == xs[k];
        }
      }
    }
  }

  /** One more lookup adds its value when present. */
  lemma PresentSnoc<T>(xs: seq<Option<T>>, x: Option<T>)
    ensures Present(xs + [x]) == Present(xs) + (if x.Some? then [x.value] else [])
  {
    assert (xs + [x])[..|xs|] == xs;
  }

  /** A student record: column name to cell text. */
  type StudentRecord = map<string, string>

  /** `d.get(k, default)`. */
  function GetOr(d: map<string, string>, k: string, default: string): (r: string)
    ensures k in d ==> r == d[k]
    ensures k !in d ==> r == default
  {
    if k in d then d[k] else default
  }

  /** The parts of a concatenation of three sequences. */
  lemma ConcatParts<T>(a: seq<T>, b: seq<T>, c: seq<T>)
    ensures (a + b + c)[..|a|] == a
    ensures (a + b + c)[|a| + |b|..] == c
    ensures a + b + c == a + (b + c)
  {
  }
}
