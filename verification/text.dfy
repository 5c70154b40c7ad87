/** The string operations of Python that the core relies on (`lower`, `upper`,
    `strip`, `in`, `find`, `split`, `join`, `isalnum` and NFD decomposition),
    over an explicit character model: the case mapping covers Basic Latin and
    the Latin-1 Supplement one character at a time, and every other character
    is treated as caseless. */
module Text {

  /** Python's `str.isspace()` on the Basic Latin and Latin-1 range. */
  predicate IsSpace(c: char) {
    var n := c as int;
    (9 <= n <= 13) || (28 <= n <= 32) || n == 0x85 || n == 0xA0
  }

  predicate IsUpperLetter(c: char) {
    var n := c as int;
    ('A' as int <= n <= 'Z' as int) || (0xC0 <= n <= 0xDE && n != 0xD7)
  }

  predicate IsLowerLetter(c: char) {
    var n := c as int;
    ('a' as int <= n <= 'z' as int) || (0xDF <= n <= 0xFF && n != 0xF7)
  }

  /** Python's `lower()` on one character of the model. */
  function LowerChar(c: char): (r: char)
    ensures !IsUpperLetter(r)
    ensures IsUpperLetter(c) ==> r as int == c as int + 32
    ensures !IsUpperLetter(c) ==> r == c
  {
    if IsUpperLetter(c) then (c as int + 32) as char else c
  }

  /** Python's `upper()` on one character of the model. Three letters of the
      Latin-1 Supplement leave it: the sharp s becomes the two letters "SS",
      y with diaeresis becomes U+0178 and the micro sign becomes the Greek
      capital mu U+039C. */
  function UpperChar(c: char): (r: string)
    ensures c == 'ß' ==> r == "SS"
    ensures c == 'ÿ' ==> r == [0x178 as char]
    ensures c == 'µ' ==> r == [0x39C as char]
    ensures IsLowerLetter(c) && c != 'ß' && c != 'ÿ' ==> r == [(c as int - 32) as char]
    ensures !IsLowerLetter(c) && c != 'µ' ==> r == [c]
  {
    if c == 'ß' then "SS"
    else if c == 'ÿ' then [0x178 as char]
    else if c == 'µ' then [0x39C as char]
    else if IsLowerLetter(c) then [(c as int - 32) as char]
    else [c]
  }

  function Lower(s: string): (r: string)
    ensures |r| == |s|
    ensures forall k :: 0 <= k < |s| ==> r[k] == LowerChar(s[k])
  {
    seq(|s|, k requires 0 <= k < |s| => LowerChar(s[k]))
  }

  /** Python's `upper()`: each character's upper case in turn, so the text
      grows by one character for every sharp s. */
  function Upper(s: string): (r: string)
    ensures |s| <= |r| <= 2 * |s|
    ensures (forall k :: 0 <= k < |s| ==> s[k] != 'ß') ==> |r| == |s|
  {
    if s == [] then [] else Upper(s[..|s| - 1]) + UpperChar(s[|s| - 1])
  }

  /** Text without lower-case letters or the micro sign is its own upper case. */
  lemma {:induction false} UpperUnchanged(s: string)
    requires forall k :: 0 <= k < |s| ==> !IsLowerLetter(s[k]) && s[k] != 'µ'
    ensures Upper(s) == s
  {
    if s != [] {
      UpperUnchanged(s[..|s| - 1]);
      assert s == s[..|s| - 1] + [s[|s| - 1]];
    }
  }

  /** Upper-casing works piece by piece. */
  lemma {:induction false} UpperAppend(a: string, b: string)
    ensures Upper(a + b) == Upper(a) + Upper(b)
  {
    if b == [] {
      assert a + b == a;
    } else {
      var init, last := b[..|b| - 1], b[|b| - 1];
      var ab := a + b;
      var n := |ab| - 1;
      assert ab[..n] == a + init;
      assert ab[n] == last;
      assert Upper(ab) == Upper(ab[..n]) + UpperChar(ab[n]);
      UpperAppend(a, init);
      assert Upper(b) == Upper(init) + UpperChar(last);
      JoinAssoc(Upper(a), Upper(init), UpperChar(last));
    }
  }

  lemma JoinAssoc(x: string, y: string, z: string)
    ensures (x + y) + z == x + (y + z)
  {
  }

  /** Without a sharp s, upper-casing keeps positions, so it commutes with slicing. */
  lemma UpperSlice(s: string, i: nat, j: nat)
    requires forall k :: 0 <= k < |s| ==> s[k] != 'ß'
    requires i <= j <= |s|
    ensures Upper(s[i..j]) == Upper(s)[i..j]
  {
    var a, b, c := s[..i], s[i..j], s[j..];
    SplitThree(s, i, j);
    assert forall k :: 0 <= k < |a| ==> a[k] == s[k];
    assert forall k :: 0 <= k < |b| ==> b[k] == s[i + k];
    UpperAppend(a + b, c);
    UpperAppend(a, b);
    var ua, ub, uc := Upper(a), Upper(b), Upper(c);
    assert |ua| == i && |ub| == j - i;
    assert Upper(s) == ua + ub + uc;
    MiddleSlice(ua, ub, uc);
  }

  /** A string is its three pieces around two cut points. */
  lemma SplitThree(s: string, i: nat, j: nat)
    requires i <= j <= |s|
    ensures s == s[..i] + s[i..j] + s[j..]
  {
  }

  /** The middle piece of a concatenation, cut back out. */
  lemma MiddleSlice(x: string, y: string, z: string)
    ensures (x + y + z)[|x|..|x| + |y|] == y
  {
  }

  /** Lower-casing twice changes nothing more. */
  lemma LowerIdempotent(s: string)
    ensures Lower(Lower(s)) == Lower(s)
  {
  }

  // ---------------------------------------------------------------------------
  // strip

  function TrimStart(s: string): (r: string)
    ensures |r| <= |s| && r == s[|s| - |r|..]
    ensures r == [] || !IsSpace(r[0])
    ensures forall k :: 0 <= k < |s| - |r| ==> IsSpace(s[k])
  {
    if |s| > 0 && IsSpace(s[0]) then TrimStart(s[1..]) else s
  }

  function TrimEnd(s: string): (r: string)
    ensures |r| <= |s| && r == s[..|r|]
    ensures r == [] || !IsSpace(r[|r| - 1])
    ensures forall k :: |r| <= k < |s| ==> IsSpace(s[k])
  {
    if |s| > 0 && IsSpace(s[|s| - 1]) then TrimEnd(s[..|s| - 1]) else s
  }

  /** Python's `strip()` with no argument. */
  function Strip(s: string): (r: string)
    ensures |r| <= |s|
    ensures r == [] || (!IsSpace(r[0]) && !IsSpace(r[|r| - 1]))
  {
    TrimEnd(TrimStart(s))
  }

  /** A string strips to nothing exactly when it is all white space. */
  lemma StripEmpty(s: string)
    ensures Strip(s) == [] <==> forall k :: 0 <= k < |s| ==> IsSpace(s[k])
  {
    var t := TrimStart(s);
    if Strip(s) == [] {
      assert t == [];
    }
  }

  /** Trailing white space does not change what `strip()` returns. */
  lemma StripTrailingSpace(a: string, t: string)
    requires forall k :: 0 <= k < |t| ==> IsSpace(t[k])
    ensures Strip(a + t) == Strip(a)
  {
    TrimStartAppend(a, t);
    TrimEndSpaces(TrimStart(a), t);
  }

  /** In a string that does not start with white space, a tail of the
      stripped text strips to what the same tail of the string strips to. */
  lemma StripUnindentedTail(s: string, i: nat)
    requires s == [] || !IsSpace(s[0])
    requires i <= |Strip(s)|
    ensures Strip(s[i..]) == Strip(Strip(s)[i..])
  {
    assert TrimStart(s) == s;
    StripSpacedTail(s, Strip(s), i);
  }

  /** Dropping trailing white space before taking a tail changes nothing once stripped. */
  lemma StripSpacedTail(s: string, t: string, i: nat)
    requires |t| <= |s| && t == s[..|t|] && i <= |t|
    requires forall k :: |t| <= k < |s| ==> IsSpace(s[k])
    ensures Strip(s[i..]) == Strip(t[i..])
  {
    var tail := s[|t|..];
    assert forall k :: 0 <= k < |tail| ==> IsSpace(tail[k]) by {
      forall k | 0 <= k < |tail| ensures IsSpace(tail[k]) {
        assert tail[k] == s[|t| + k];
      }
    }
    assert s[i..] == t[i..] + tail;
    StripTrailingSpace(t[i..], tail);
  }

  lemma {:induction false} TrimStartAppend(a: string, t: string)
    requires forall k :: 0 <= k < |t| ==> IsSpace(t[k])
    ensures TrimStart(a) == [] ==> TrimStart(a + t) == []
    ensures TrimStart(a) != [] ==> TrimStart(a + t) == TrimStart(a) + t
  {
    if |a| > 0 && IsSpace(a[0]) {
      assert (a + t)[1..] == a[1..] + t;
      TrimStartAppend(a[1..], t);
    } else if |a| == 0 {
      assert a + t == t;
    }
  }

  lemma {:induction false} TrimEndSpaces(a: string, t: string)
    requires forall k :: 0 <= k < |t| ==> IsSpace(t[k])
    ensures TrimEnd(a + t) == TrimEnd(a)
  {
    if t == [] {
      assert a + t == a;
    } else {
      assert (a + t)[..|a + t| - 1] == a + t[..|t| - 1];
      TrimEndSpaces(a, t[..|t| - 1]);
    }
  }

  // ---------------------------------------------------------------------------
  // `in` and `find`

  predicate OccursAt(s: string, p: string, k: int) {
    0 <= k && k + |p| <= |s| && s[k..k + |p|] == p
  }

  /** `s` opens with `p`. */
  predicate StartsWith(s: string, p: string) {
    OccursAt(s, p, 0)
  }

  /** `s` closes with `p`. */
  predicate EndsWith(s: string, p: string) {
    OccursAt(s, p, |s| - |p|)
  }

  /** Python's `s.find(p, i)`: the first position at or after `i` where `p` occurs, or -1. */
  function FindFrom(s: string, p: string, i: nat): (r: int)
    decreases |s| - i
    ensures r == -1 || (i <= r && OccursAt(s, p, r))
    ensures r == -1 ==> forall k :: i <= k ==> !OccursAt(s, p, k)
    ensures r != -1 ==> forall k :: i <= k < r ==> !OccursAt(s, p, k)
  {
    if i + |p| > |s| then -1
    else if s[i..i + |p|] == p then i
    else FindFrom(s, p, i + 1)
  }

  /** Python's `s.find(p)`. */
  function Find(s: string, p: string): int
  {
    FindFrom(s, p, 0)
  }

  /** `p` occurs at `k` and nowhere before. */
  predicate FirstOccursAt(s: string, p: string, k: int) {
    OccursAt(s, p, k) && forall j :: 0 <= j < k ==> !OccursAt(s, p, j)
  }

  /** `find` reports the first occurrence. */
  lemma FindIsFirst(s: string, p: string)
    requires Contains(s, p)
    ensures FirstOccursAt(s, p, Find(s, p))
  {
  }

  /** The first occurrence is the one `find` reports. */
  lemma FirstIsFind(s: string, p: string, k: int)
    requires FirstOccursAt(s, p, k)
    ensures k == Find(s, p)
  {
  }

  /** Python's `p in s` for strings. */
  predicate Contains(s: string, p: string)
  {
    Find(s, p) >= 0
  }

  /** `p in s` holds exactly when `p` occurs somewhere in `s`. */
  lemma ContainsIff(s: string, p: string)
    ensures Contains(s, p) <==> exists k :: OccursAt(s, p, k)
  {
    if exists k :: OccursAt(s, p, k) {
      var k :| OccursAt(s, p, k);
      assert Find(s, p) != -1;
    }
  }

  /** The empty string occurs in every string, at position 0. */
  lemma ContainsEmpty(s: string)
    ensures Contains(s, "") && Find(s, "") == 0
  {
    assert s[0..0] == "";
  }

  /** A string occurs in any string it is a prefix of. */
  lemma ContainsPrefix(s: string, p: string)
    requires |p| <= |s| && s[..|p|] == p
    ensures Contains(s, p)
  {
    assert OccursAt(s, p, 0);
    ContainsIff(s, p);
  }

  /** A string occurs in any concatenation it is the middle part of. */
  lemma ContainsInfix(a: string, b: string, c: string)
    ensures Contains(a + b + c, b)
  {
    assert (a + b + c)[|a|..|a| + |b|] == b;
    assert OccursAt(a + b + c, b, |a|);
    ContainsIff(a + b + c, b);
  }

  /** Containment is transitive. */
  lemma ContainsTrans(s: string, t: string, u: string)
    requires Contains(s, t) && Contains(t, u)
    ensures Contains(s, u)
  {
    ContainsIff(s, t);
    ContainsIff(t, u);
    var i :| OccursAt(s, t, i);
    var j :| OccursAt(t, u, j);
    assert s[i..i + |t|] == t;
    forall k | 0 <= k < |u| ensures s[i + j + k] == u[k] {
      assert s[i + j + k] == s[i..i + |t|][j + k];
      assert t[j..j + |u|][k] == u[k];
    }
    assert s[i + j..i + j + |u|] == u;
    assert OccursAt(s, u, i + j);
    ContainsIff(s, u);
  }

  // ---------------------------------------------------------------------------
  // split and join

  /** Python's `s.split(sep)` for a one-character separator. */
  function SplitOn(s: string, sep: char): (r: seq<string>)
    decreases |s|
    ensures |r| >= 1
  {
    var i := Find(s, [sep]);
    if i < 0 then [s] else [s[..i]] + SplitOn(s[i + 1..], sep)
  }

  /** Python's `sep.join(parts)`. */
  function Join(sep: string, parts: seq<string>): string
  {
    if |parts| == 0 then ""
    else if |parts| == 1 then parts[0]
    else parts[0] + sep + Join(sep, parts[1..])
  }

  /** The pieces of a text glued together in order, as repeated `+=` builds it. */
  function Concat(parts: seq<string>): string
  {
    if parts == [] then "" else Concat(parts[..|parts| - 1]) + parts[|parts| - 1]
  }

  /** Appending one more piece appends its text. */
  lemma ConcatSnoc(parts: seq<string>, p: string)
    ensures Concat(parts + [p]) == Concat(parts) + p
  {
    assert (parts + [p])[..|parts|] == parts;
  }

  /** Every piece occurs in the glued text. */
  lemma {:induction false} ConcatHasPart(parts: seq<string>, i: nat)
    requires i < |parts|
    ensures Contains(Concat(parts), parts[i])
  {
    var init := parts[..|parts| - 1];
    var last := parts[|parts| - 1];
    if i == |parts| - 1 {
      ContainsInfix(Concat(init), last, "");
      assert Concat(init) + last + "" == Concat(parts);
    } else {
      ConcatHasPart(init, i);
      ContainsInfix("", Concat(init), last);
      assert "" + Concat(init) + last == Concat(parts);
      ContainsTrans(Concat(parts), Concat(init), parts[i]);
    }
  }

  /** The glued text begins with the first piece. */
  lemma {:induction false} ConcatFirst(parts: seq<string>)
    requires |parts| > 0
    ensures |Concat(parts)| >= |parts[0]|
    ensures Concat(parts)[..|parts[0]|] == parts[0]
  {
    var init := parts[..|parts| - 1];
    if |parts| == 1 {
      assert Concat(parts) == "" + parts[0];
    } else {
      ConcatFirst(init);
      assert Concat(parts)[..|parts[0]|] == Concat(init)[..|parts[0]|];
    }
  }

  /** The glued text of at least two pieces begins with the first and ends with the last. */
  lemma ConcatEnds(parts: seq<string>)
    requires |parts| >= 2
    ensures |Concat(parts)| >= |parts[0]| + |parts[|parts| - 1]|
    ensures Concat(parts)[..|parts[0]|] == parts[0]
    ensures Concat(parts)[|Concat(parts)| - |parts[|parts| - 1]|..] == parts[|parts| - 1]
  {
    var init := parts[..|parts| - 1];
    ConcatFirst(parts);
    ConcatFirst(init);
    assert Concat(parts) == Concat(init) + parts[|parts| - 1];
  }

  /** Splitting on a character and joining with it again gives back the text. */
  lemma {:induction false} SplitJoinRoundTrip(s: string, sep: char)
    ensures Join([sep], SplitOn(s, sep)) == s
    decreases |s|
  {
    var i := Find(s, [sep]);
    if i >= 0 {
      SplitJoinRoundTrip(s[i + 1..], sep);
      var rest := SplitOn(s[i + 1..], sep);
      assert SplitOn(s, sep) == [s[..i]] + rest;
      assert s[i..i + 1] == [sep];
      assert s == s[..i] + [sep] + s[i + 1..];
    }
  }

  /** The last piece of a split is whatever follows the last separator. */
  lemma {:induction false} SplitOnLast(front: string, sep: char, last: string)
    requires forall k :: 0 <= k < |last| ==> last[k] != sep
    ensures var parts := SplitOn(front + [sep] + last, sep); parts[|parts| - 1] == last
    decreases |front|
  {
    var s := front + [sep] + last;
    assert OccursAt(s, [sep], |front|);
    var i := Find(s, [sep]);
    assert 0 <= i <= |front|;
    if i == |front| {
      assert s[i + 1..] == last;
      forall k | 0 <= k < |last| ensures !OccursAt(last, [sep], k) {
        assert last[k..k + 1][0] == last[k];
      }
    } else {
      assert s[i..i + 1] == [sep];
      assert s[i + 1..] == front[i + 1..] + [sep] + last;
      SplitOnLast(front[i + 1..], sep, last);
    }
  }

  /** The leading run of non-space characters. */
  function WordPrefix(s: string): (r: string)
    ensures |r| <= |s| && r == s[..|r|]
    ensures |s| > 0 && !IsSpace(s[0]) ==> |r| > 0
    ensures forall k :: 0 <= k < |r| ==> !IsSpace(r[k])
    ensures |r| < |s| ==> IsSpace(s[|r|])
  {
    if |s| == 0 || IsSpace(s[0]) then [] else [s[0]] + WordPrefix(s[1..])
  }

  /** A maximal run of non-space characters, as `split()` yields them. */
  predicate IsWord(w: string) {
    w != [] && forall j :: 0 <= j < |w| ==> !IsSpace(w[j])
  }

  /** Python's `s.split()` (no argument): the maximal runs of non-space characters. */
  function Words(s: string): (r: seq<string>)
    decreases |s|
    ensures forall k :: 0 <= k < |r| ==> IsWord(r[k])
  {
    if s == [] then []
    else if IsSpace(s[0]) then Words(s[1..])
    else
      var w := WordPrefix(s);
      [w] + Words(s[|w|..])
  }

  // ---------------------------------------------------------------------------
  // NFD decomposition, combining marks and isalnum, for column names

  /** Unicode general category Mn, restricted to the Combining Diacritical Marks block. */
  predicate IsCombiningMark(c: char) {
    0x300 <= c as int <= 0x36F
  }

  /** The base letter of a lower-case Latin-1 letter carrying a diacritic, if it has one. */
  function BaseLetter(c: char): (r: char)
  {
    var n := c as int;
    if 0xE0 <= n <= 0xE5 then 'a'
    else if n == 0xE7 then 'c'
    else if 0xE8 <= n <= 0xEB then 'e'
    else if 0xEC <= n <= 0xEF then 'i'
    else if n == 0xF1 then 'n'
    else if 0xF2 <= n <= 0xF6 then 'o'
    else if 0xF9 <= n <= 0xFC then 'u'
    else if n == 0xFD || n == 0xFF then 'y'
    else c
  }

  /** The combining mark that NFD splits off a lower-case Latin-1 letter. */
  function MarkOf(c: char): (r: char)
    ensures IsCombiningMark(r)
  {
    var n := c as int;
    if n in {0xE0, 0xE8, 0xEC, 0xF2, 0xF9} then '\U{300}'
    else if n in {0xE1, 0xE9, 0xED, 0xF3, 0xFA, 0xFD} then '\U{301}'
    else if n in {0xE2, 0xEA, 0xEE, 0xF4, 0xFB} then '\U{302}'
    else if n in {0xE3, 0xF1, 0xF5} then '\U{303}'
    else if n in {0xE4, 0xEB, 0xEF, 0xF6, 0xFC, 0xFF} then '\U{308}'
    else if n == 0xE5 then '\U{30A}'
    else '\U{327}'
  }

  /** A precomposed letter of the model (lower-case Latin-1 with a diacritic). */
  predicate IsDecomposable(c: char) {
    BaseLetter(c) != c
  }

  /** NFD of one character: a precomposed letter becomes its base letter and its mark. */
  function DecomposeChar(c: char): (r: string)
    ensures 1 <= |r| <= 2
    ensures forall k :: 0 <= k < |r| ==> !IsDecomposable(r[k])
  {
    if IsDecomposable(c) then [BaseLetter(c), MarkOf(c)] else [c]
  }

  /** `unicodedata.normalize('NFD', s)` for the lower-case strings the model feeds it. */
  function Nfd(s: string): (r: string)
    ensures forall k :: 0 <= k < |r| ==> !IsDecomposable(r[k])
  {
    if s == [] then [] else Nfd(s[..|s| - 1]) + DecomposeChar(s[|s| - 1])
  }

  /** NFD leaves a string without precomposed letters as it is. */
  lemma {:induction false} NfdStable(s: string)
    requires forall k :: 0 <= k < |s| ==> !IsDecomposable(s[k])
    ensures Nfd(s) == s
  {
    if s != [] {
      NfdStable(s[..|s| - 1]);
      assert s == s[..|s| - 1] + [s[|s| - 1]];
    }
  }

  /** Python's `isalnum()` on the model: ASCII letters and digits, the Latin-1
      letters, the feminine and masculine ordinal indicators, micro sign,
      superscript digits and vulgar fractions; combining marks and every other
      character count as non-alphanumeric. */
  predicate IsAlnum(c: char) {
    var n := c as int;
    ('0' as int <= n <= '9' as int) || ('a' as int <= n <= 'z' as int) || ('A' as int <= n <= 'Z' as int)
    || (0xC0 <= n <= 0xFF && n != 0xD7 && n != 0xF7)
    || n in {0xAA, 0xB2, 0xB3, 0xB5, 0xB9, 0xBA, 0xBC, 0xBD, 0xBE}
  }

  /** Keeps the characters that are not combining marks. */
  function DropMarks(s: string): (r: string)
    ensures |r| <= |s|
    ensures forall k :: 0 <= k < |r| ==> !IsCombiningMark(r[k])
    ensures forall k :: 0 <= k < |r| ==> r[k] in s
  {
    if s == [] then []
    else DropMarks(s[..|s| - 1]) + (if IsCombiningMark(s[|s| - 1]) then [] else [s[|s| - 1]])
  }

  /** Keeps the alphanumeric characters. */
  function KeepAlnum(s: string): (r: string)
    ensures |r| <= |s|
    ensures forall k :: 0 <= k < |r| ==> IsAlnum(r[k])
    ensures forall k :: 0 <= k < |r| ==> r[k] in s
  {
    if s == [] then []
    else KeepAlnum(s[..|s| - 1]) + (if IsAlnum(s[|s| - 1]) then [s[|s| - 1]] else [])
  }

  /** A filter that every character passes leaves the text as it is. */
  lemma {:induction false} DropMarksStable(s: string)
    requires forall k :: 0 <= k < |s| ==> !IsCombiningMark(s[k])
    ensures DropMarks(s) == s
  {
    if s != [] {
      DropMarksStable(s[..|s| - 1]);
      assert s == s[..|s| - 1] + [s[|s| - 1]];
    }
  }

  lemma {:induction false} KeepAlnumStable(s: string)
    requires forall k :: 0 <= k < |s| ==> IsAlnum(s[k])
    ensures KeepAlnum(s) == s
  {
    if s != [] {
      KeepAlnumStable(s[..|s| - 1]);
      assert s == s[..|s| - 1] + [s[|s| - 1]];
    }
  }

  /** Case mapping works character by character. */
  lemma LowerAppend(a: string, b: string)
    ensures Lower(a + b) == Lower(a) + Lower(b)
  {
  }

  /** NFD works character by character. */
  lemma {:induction false} NfdAppend(a: string, b: string)
    ensures Nfd(a + b) == Nfd(a) + Nfd(b)
    decreases |b|
  {
    if b != [] {
      var b' := b[..|b| - 1];
      NfdAppend(a, b');
      assert (a + b)[..|a + b| - 1] == a + b';
    } else {
      assert a + b == a;
    }
  }

  /** NFD of a text without upper-case letters has none either. */
  lemma {:induction false} NfdNoUpper(s: string)
    requires forall k :: 0 <= k < |s| ==> !IsUpperLetter(s[k])
    ensures forall k :: 0 <= k < |Nfd(s)| ==> !IsUpperLetter(Nfd(s)[k])
  {
    if s != [] {
      NfdNoUpper(s[..|s| - 1]);
    }
  }

  lemma {:induction false} DropMarksAppend(a: string, b: string)
    ensures DropMarks(a + b) == DropMarks(a) + DropMarks(b)
    decreases |b|
  {
    if b != [] {
      var b' := b[..|b| - 1];
      DropMarksAppend(a, b');
      assert (a + b)[..|a + b| - 1] == a + b';
    } else {
      assert a + b == a;
    }
  }

  lemma {:induction false} KeepAlnumAppend(a: string, b: string)
    ensures KeepAlnum(a + b) == KeepAlnum(a) + KeepAlnum(b)
    decreases |b|
  {
    if b != [] {
      var b' := b[..|b| - 1];
      KeepAlnumAppend(a, b');
      assert (a + b)[..|a + b| - 1] == a + b';
    } else {
      assert a + b == a;
    }
  }
}
