/**
 * String and list helpers with the exact semantics of the Java and Spring utilities the core
 * calls: String.startsWith/endsWith/contains/trim/equalsIgnoreCase, Integer.parseInt,
 * Integer.toString, StringUtils.commaDelimitedListToStringArray and StringUtils.hasText, and the
 * insertion order of a LinkedHashSet built from a list.
 */
module Text {
  import opened Wrappers

  predicate StartsWith(s: string, prefix: string) {
    |prefix| <= |s| && s[..|prefix|] == prefix
  }

  predicate EndsWith(s: string, suffix: string) {
    |suffix| <= |s| && s[|s| - |suffix|..] == suffix
  }

  /** String.contains: `part` occurs somewhere in `s`. */
  predicate Contains(s: string, part: string)
    decreases |s|
  {
    StartsWith(s, part) || (|s| > 0 && Contains(s[1..], part))
  }

  /** `part` occurs in `s` starting at index `i`. */
  predicate OccursAt(s: string, part: string, i: int) {
    0 <= i <= |s| - |part| && s[i..i + |part|] == part
  }

  /** Contains means exactly "occurs at some index". */
  lemma {:induction false} ContainsIff(s: string, part: string)
    ensures Contains(s, part) <==> exists i :: OccursAt(s, part, i)
    decreases |s|
  {
    if StartsWith(s, part) {
      assert OccursAt(s, part, 0);
    } else if |s| > 0 {
      ContainsIff(s[1..], part);
      if Contains(s[1..], part) {
        var i :| OccursAt(s[1..], part, i);
        assert s[i + 1..i + 1 + |part|] == s[1..][i..i + |part|];
        assert OccursAt(s, part, i + 1);
      }
      if exists i :: OccursAt(s, part, i) {
        var i :| OccursAt(s, part, i);
        assert i != 0;
        assert s[1..][i - 1..i - 1 + |part|] == s[i..i + |part|];
        assert OccursAt(s[1..], part, i - 1);
      }
    } else {
      assert forall i :: OccursAt(s, part, i) ==> i == 0;
    }
  }

  /** A string contains each of its middle parts. */
  lemma ContainsInfix(a: string, b: string, c: string)
    ensures Contains(a + b + c, b)
  {
    var s := a + b + c;
    assert s[|a|..|a| + |b|] == b;
    assert OccursAt(s, b, |a|);
    ContainsIff(s, b);
  }

  /** Position of the first occurrence of `c` (String.indexOf, List.indexOf). */
  function IndexOf<T(==)>(s: seq<T>, c: T): (r: nat)
    requires c in s
    ensures r < |s| && s[r] == c && c !in s[..r]
  {
    if s[0] == c then 0 else
      assert c in s[1..] by { var k :| 0 <= k < |s| && s[k] == c; assert s[1..][k - 1] == c; }
      var r := 1 + IndexOf(s[1..], c);
      assert s[..r] == [s[0]] + s[1..][..r - 1];
      r
  }

  // ---------------------------------------------------------------------------------------
  // Splitting on a delimiter

  /** The pieces of `s` between occurrences of `d`, empty pieces included. */
  function SplitOn(s: string, d: char): (parts: seq<string>)
    ensures |parts| >= 1
    ensures forall i :: 0 <= i < |parts| ==> d !in parts[i]
    decreases |s|
  {
    if d in s then
      var i := IndexOf(s, d);
      [s[..i]] + SplitOn(s[i + 1..], d)
    else
      [s]
  }

  /** Joins pieces with the delimiter between consecutive ones. */
  function JoinWith(parts: seq<string>, d: char): string
    decreases |parts|
  {
    if |parts| == 0 then "" else if |parts| == 1 then parts[0] else parts[0] + [d] + JoinWith(parts[1..], d)
  }

  /** Splitting loses nothing: joining the pieces gives the original string back. */
  lemma {:induction false} JoinSplit(s: string, d: char)
    ensures JoinWith(SplitOn(s, d), d) == s
    decreases |s|
  {
    if d in s {
      var i := IndexOf(s, d);
      var rest := SplitOn(s[i + 1..], d);
      var parts := SplitOn(s, d);
      assert parts == [s[..i]] + rest;
      assert parts[0] == s[..i] && parts[1..] == rest && |parts| > 1;
      JoinSplit(s[i + 1..], d);
      assert JoinWith(parts, d) == s[..i] + [d] + s[i + 1..];
      assert s == s[..i] + [d] + s[i + 1..];
    }
  }

  /** Splitting a join of delimiter-free pieces gives the pieces back. */
  lemma {:induction false} SplitJoin(parts: seq<string>, d: char)
    requires |parts| >= 1
    requires forall i :: 0 <= i < |parts| ==> d !in parts[i]
    ensures SplitOn(JoinWith(parts, d), d) == parts
    decreases |parts|
  {
    if |parts| > 1 {
      var s := JoinWith(parts, d);
      assert s == parts[0] + [d] + JoinWith(parts[1..], d);
      assert s[|parts[0]|] == d;
      assert d in s;
      var i := IndexOf(s, d);
      assert s[..|parts[0]|] == parts[0];
      assert i == |parts[0]|;
      assert s[i + 1..] == JoinWith(parts[1..], d);
      SplitJoin(parts[1..], d);
      assert parts == [parts[0]] + parts[1..];
    } else {
      assert JoinWith(parts, d) == parts[0];
    }
  }

  /**
   * StringUtils.commaDelimitedListToStringArray: null and "" give no elements; otherwise the
   * comma-separated pieces, untrimmed, empty pieces kept.
   */
  function CommaDelimitedList(s: Option<string>): (r: seq<string>)
    ensures s == None || s == Some("") <==> r == []
    ensures s.Some? && s.value != "" ==> JoinWith(r, ',') == s.value
    ensures forall i :: 0 <= i < |r| ==> ',' !in r[i]
  {
    match s
    case None => []
    case Some(v) =>
      if v == "" then [] else
        JoinSplit(v, ',');
        SplitOn(v, ',')
  }

  // ---------------------------------------------------------------------------------------
  // Trimming and whitespace

  /** Index of the first character above U+0020, or |s|. */
  function TrimStartIndex(s: string): (i: nat)
    ensures i <= |s|
    ensures forall k :: 0 <= k < i ==> s[k] <= ' '
    ensures i < |s| ==> s[i] > ' '
    decreases |s|
  {
    if |s| == 0 || s[0] > ' ' then 0 else 1 + TrimStartIndex(s[1..])
  }

  /** One past the index of the last character above U+0020, or `lo` if there is none. */
  function TrimEndIndex(s: string, lo: nat): (j: nat)
    requires lo <= |s|
    ensures lo <= j <= |s|
    ensures forall k :: j <= k < |s| ==> s[k] <= ' '
    ensures j > lo ==> s[j - 1] > ' '
    decreases |s|
  {
    if |s| == lo || s[|s| - 1] > ' ' then |s| else TrimEndIndex(s[..|s| - 1], lo)
  }

  /** Every character is at or below U+0020, the characters String.trim drops. */
  predicate AllControlOrSpace(s: string) {
    forall k :: 0 <= k < |s| ==> s[k] <= ' '
  }

  /**
   * String.trim: drops leading and trailing characters at or below U+0020. The result begins
   * and ends with a character above U+0020 unless it is empty.
   */
  function Trim(s: string): (r: string)
    ensures |r| <= |s|
    ensures r == [] || (r[0] > ' ' && r[|r| - 1] > ' ')
  {
    s[TrimStartIndex(s)..TrimEndIndex(s, TrimStartIndex(s))]
  }

  /**
   * The trimmed string is the middle of a split of `s` whose outer parts hold only characters
   * at or below U+0020; the first part is the run of such characters that `s` starts with.
   */
  lemma TrimSpec(s: string)
    ensures var lo, r := TrimStartIndex(s), Trim(s);
      lo + |r| <= |s| && s[lo..lo + |r|] == r
      && AllControlOrSpace(s[..lo]) && AllControlOrSpace(s[lo + |r|..])
  {
    var lo := TrimStartIndex(s);
    var hi := TrimEndIndex(s, lo);
    assert AllControlOrSpace(s[..lo]);
    assert AllControlOrSpace(s[hi..]);
  }

  /** Trimming what is already trimmed changes nothing. */
  lemma TrimIdempotent(s: string)
    ensures Trim(Trim(s)) == Trim(s)
  {
    var t := Trim(s);
    if t != [] {
      assert TrimStartIndex(t) == 0;
      assert TrimEndIndex(t, 0) == |t|;
    }
  }

  /** StringUtils.trimArrayElements. */
  function TrimAll(ss: seq<string>): (r: seq<string>)
    ensures |r| == |ss| && forall i :: 0 <= i < |ss| ==> r[i] == Trim(ss[i])
  {
    seq(|ss|, i requires 0 <= i < |ss| => Trim(ss[i]))
  }

  /**
   * Character.isWhitespace on the Java 6 to 8 runtimes this code targets: the space, line and
   * paragraph separators other than the non-breaking ones (U+00A0, U+2007, U+202F), with
   * U+180E still a space separator there, and the controls TAB, LF, VT, FF, CR and U+001C to
   * U+001F.
   */
  predicate IsWhitespace(c: char) {
    c == ' ' || c == '\t' || c == '\n' || c == '\U{000B}' || c == '\U{000C}' || c == '\r'
    || ('\U{001C}' <= c <= '\U{001F}')
    || c == '\U{1680}' || c == '\U{180E}' || ('\U{2000}' <= c <= '\U{2006}') || ('\U{2008}' <= c <= '\U{200A}')
    || c == '\U{2028}' || c == '\U{2029}' || c == '\U{205F}' || c == '\U{3000}'
  }

  /** StringUtils.hasText: not null and some character is not whitespace. */
  predicate HasText(s: Option<string>) {
    s.Some? && exists i :: 0 <= i < |s.value| && !IsWhitespace(s.value[i])
  }

  /**
   * StringUtils.trimAllWhitespace: drops every whitespace character, inner ones included. A
   * single character is dropped exactly when it is whitespace; with TrimAllWhitespaceAppend
   * this makes the result the non-whitespace characters of `s`, in order.
   */
  function TrimAllWhitespace(s: string): (r: string)
    ensures |r| <= |s|
    ensures forall i :: 0 <= i < |r| ==> !IsWhitespace(r[i])
    ensures (forall i :: 0 <= i < |s| ==> !IsWhitespace(s[i])) ==> r == s
    ensures |s| == 1 ==> r == if IsWhitespace(s[0]) then [] else s
    decreases |s|
  {
    if s == [] then []
    else
      var rest := TrimAllWhitespace(s[1..]);
      if IsWhitespace(s[0]) then rest else [s[0]] + rest
  }

  /** Dropping whitespace works piece by piece: the pieces' results are concatenated. */
  lemma {:induction false} TrimAllWhitespaceAppend(a: string, b: string)
    ensures TrimAllWhitespace(a + b) == TrimAllWhitespace(a) + TrimAllWhitespace(b)
    decreases |a|
  {
    if a != [] {
      assert (a + b)[0] == a[0];
      assert (a + b)[1..] == a[1..] + b;
      TrimAllWhitespaceAppend(a[1..], b);
    } else {
      assert a + b == b;
    }
  }

  // ---------------------------------------------------------------------------------------
  // Case-insensitive comparison

  function UpperAscii(c: char): char {
    if 'a' <= c <= 'z' then (c as int - 32) as char else c
  }

  /** String.equalsIgnoreCase, on ASCII case folding. */
  predicate EqualsIgnoreCase(a: string, b: string) {
    |a| == |b| && forall i :: 0 <= i < |a| ==> UpperAscii(a[i]) == UpperAscii(b[i])
  }

  // ---------------------------------------------------------------------------------------
  // Sequences as ordered sets

  predicate NoDup<T(==)>(s: seq<T>) {
    forall i, j :: 0 <= i < j < |s| ==> s[i] != s[j]
  }

  function Reverse<T>(s: seq<T>): (r: seq<T>)
    ensures |r| == |s|
    ensures forall i :: 0 <= i < |s| ==> r[i] == s[|s| - 1 - i]
  {
    if s == [] then [] else Reverse(s[1..]) + [s[0]]
  }

  /**
   * `new LinkedHashSet<>(s)`: the elements of `s` in order of first occurrence.
   * Each step mirrors one `add` on the set.
   */
  function Dedup<T(==)>(s: seq<T>): (r: seq<T>)
    ensures NoDup(r)
    ensures forall i :: 0 <= i < |s| ==> s[i] in r
    ensures forall i :: 0 <= i < |r| ==> r[i] in s
    ensures |r| <= |s|
    decreases |s|
  {
    if s == [] then []
    else
      var r := Dedup(s[..|s| - 1]);
      assert forall i :: 0 <= i < |s| - 1 ==> s[i] == s[..|s| - 1][i];
      if s[|s| - 1] in r then r else r + [s[|s| - 1]]
  }

  /** The list with the element at index `i` taken out. */
  function DeleteAt<T>(s: seq<T>, i: nat): (r: seq<T>)
    requires i < |s|
    ensures |r| == |s| - 1
    ensures forall k :: 0 <= k < i ==> r[k] == s[k]
    ensures forall k :: i <= k < |r| ==> r[k] == s[k + 1]
  {
    s[..i] + s[i + 1..]
  }

  /** The list with `x` inserted so that it ends up at index `i`. */
  function InsertAt<T>(s: seq<T>, i: nat, x: T): (r: seq<T>)
    requires i <= |s|
    ensures |r| == |s| + 1 && r[i] == x
    ensures forall k :: 0 <= k < i ==> r[k] == s[k]
    ensures forall k :: i < k < |r| ==> r[k] == s[k - 1]
  {
    s[..i] + [x] + s[i..]
  }

  lemma NoDupDelete<T>(s: seq<T>, i: nat)
    requires i < |s| && NoDup(s)
    ensures NoDup(DeleteAt(s, i)) && s[i] !in DeleteAt(s, i)
  {
    var r := DeleteAt(s, i);
    forall a, b | 0 <= a < b < |r|
      ensures r[a] != r[b]
    {
      var a' := if a < i then a else a + 1;
      var b' := if b < i then b else b + 1;
      assert r[a] == s[a'] && r[b] == s[b'];
    }
    forall k | 0 <= k < |r|
      ensures r[k] != s[i]
    {
      var k' := if k < i then k else k + 1;
      assert r[k] == s[k'];
    }
  }

  /** Inserting keeps every element already there. */
  lemma InsertAtKeeps<T>(s: seq<T>, i: nat, x: T)
    requires i <= |s|
    ensures forall y :: y in s ==> y in InsertAt(s, i, x)
  {
    var r := InsertAt(s, i, x);
    forall y | y in s
      ensures y in r
    {
      var k :| 0 <= k < |s| && s[k] == y;
      if k < i {
        assert r[k] == y;
      } else {
        assert r[k + 1] == y;
      }
    }
  }

  lemma NoDupInsert<T>(s: seq<T>, i: nat, x: T)
    requires i <= |s| && NoDup(s) && x !in s
    ensures NoDup(InsertAt(s, i, x))
  {
    var r := InsertAt(s, i, x);
    forall a, b | 0 <= a < b < |r|
      ensures r[a] != r[b]
    {
      if a != i && b != i {
        var a' := if a < i then a else a - 1;
        var b' := if b < i then b else b - 1;
        assert r[a] == s[a'] && r[b] == s[b'];
      } else if a == i {
        assert r[b] == s[b - 1];
      } else {
        assert r[a] == s[a];
      }
    }
  }

  /** A list without duplicates is its own ordered set. */
  lemma {:induction false} DedupOfNoDup<T>(s: seq<T>)
    requires NoDup(s)
    ensures Dedup(s) == s
    decreases |s|
  {
    if s != [] {
      DedupOfNoDup(s[..|s| - 1]);
      assert s[|s| - 1] !in s[..|s| - 1];
      assert s == s[..|s| - 1] + [s[|s| - 1]];
    }
  }

  /** Adding more elements never reorders or drops the ones already in the set. */
  lemma {:induction false} DedupPrefix<T>(a: seq<T>, b: seq<T>)
    ensures Dedup(a) <= Dedup(a + b)
    decreases |b|
  {
    if b == [] {
      assert a + b == a;
    } else {
      var b' := b[..|b| - 1];
      DedupPrefix(a, b');
      assert (a + b)[..|a + b| - 1] == a + b';
    }
  }

  /** The first element of a list is the first element of its ordered set. */
  lemma DedupHead<T>(x: T, s: seq<T>)
    ensures |Dedup([x] + s)| > 0 && Dedup([x] + s)[0] == x
  {
    DedupPrefix([x], s);
    assert Dedup([x]) == [x] by {
      assert [x][..0] == [];
    }
  }

  /** Dedup always yields a set: applying it twice is the same as once. */
  lemma DedupIdempotent<T>(s: seq<T>)
    ensures Dedup(Dedup(s)) == Dedup(s)
  {
    DedupOfNoDup(Dedup(s));
  }

  /** The ordered set of a list holds exactly the list's elements. */
  lemma DedupMembers<T>(s: seq<T>)
    ensures forall x :: x in Dedup(s) <==> x in s
  {
    var d := Dedup(s);
    forall x | x in d
      ensures x in s
    {
      var i :| 0 <= i < |d| && d[i] == x;
      assert d[i] in s;
    }
    forall x | x in s
      ensures x in d
    {
      var i :| 0 <= i < |s| && s[i] == x;
      assert s[i] in d;
    }
  }

  /** Reversing keeps exactly the elements of the list. */
  lemma ReverseMembers<T>(s: seq<T>)
    ensures forall x :: x in Reverse(s) <==> x in s
  {
    var rev := Reverse(s);
    forall x | x in s
      ensures x in rev
    {
      var i :| 0 <= i < |s| && s[i] == x;
      assert rev[|s| - 1 - i] == x;
    }
    forall x | x in rev
      ensures x in s
    {
      var i :| 0 <= i < |rev| && rev[i] == x;
      assert s[|s| - 1 - i] == x;
    }
  }

  /** Reversing and then taking the ordered set keeps exactly the elements of the list. */
  lemma ReverseDedupMembers<T>(s: seq<T>)
    ensures forall x :: x in Dedup(Reverse(s)) <==> x in s
  {
    ReverseMembers(s);
    DedupMembers(Reverse(s));
  }

  /** The last element of a non-empty list comes first once reversed into an ordered set. */
  lemma ReverseDedupHead<T>(s: seq<T>)
    requires |s| > 0
    ensures |Dedup(Reverse(s))| > 0 && Dedup(Reverse(s))[0] == s[|s| - 1]
  {
    var rev := Reverse(s);
    assert rev == [rev[0]] + rev[1..];
    DedupHead(rev[0], rev[1..]);
  }

  /** Concatenation is associative (a step Dafny's sequence axioms sometimes need spelled out). */
  lemma AppendAssociative<T>(a: seq<T>, b: seq<T>, c: seq<T>)
    ensures a + b + c == a + (b + c)
  {
  }

  lemma StartsWithAppend(a: string, b: string)
    ensures StartsWith(a + b, a)
  {
    assert (a + b)[..|a|] == a;
  }

  lemma StartsWithTransitive(s: string, p: string, q: string)
    requires StartsWith(s, p) && StartsWith(p, q)
    ensures StartsWith(s, q)
  {
    assert s[..|q|] == s[..|p|][..|q|];
  }

  // ---------------------------------------------------------------------------------------
  // Decimal numbers

  function DigitChar(d: nat): char
    requires d < 10
  {
    (48 + d) as char
  }

  predicate IsDigit(c: char) {
    '0' <= c <= '9'
  }

  /** Integer.toString of a non-negative value. */
  function NatToString(n: nat): (s: string)
    ensures |s| > 0 && forall i :: 0 <= i < |s| ==> IsDigit(s[i])
  {
    if n < 10 then [DigitChar(n)] else NatToString(n / 10) + [DigitChar(n % 10)]
  }

  /** Integer.toString / Long.toString. */
  function IntToString(i: int): string {
    if i < 0 then "-" + NatToString(-i) else NatToString(i)
  }

  /** The value of a string of decimal digits. */
  function DigitsValue(s: string): nat
    requires forall i :: 0 <= i < |s| ==> IsDigit(s[i])
  {
    if s == [] then 0 else
      assert IsDigit(s[|s| - 1]);
      DigitsValue(s[..|s| - 1]) * 10 + (s[|s| - 1] as int - 48) as nat
  }

  /**
   * Integer.parseInt (lo = -2^31, hi = 2^31 - 1) and Long.parseLong (lo = -2^63,
   * hi = 2^63 - 1) on ASCII digits: an optional sign, at least one digit, and a value in
   * range; None stands for NumberFormatException.
   */
  function ParseInteger(s: string, lo: int, hi: int): (r: Option<int>)
    ensures r.Some? ==> lo <= r.value <= hi
  {
    if |s| == 0 then None
    else
      var negative := s[0] == '-';
      var digits := if s[0] == '-' || s[0] == '+' then s[1..] else s;
      if |digits| == 0 || !(forall i :: 0 <= i < |digits| ==> IsDigit(digits[i])) then None
      else
        var v: int := if negative then -(DigitsValue(digits) as int) else DigitsValue(digits);
        if lo <= v <= hi then Some(v) else None
  }

  lemma {:induction false} DigitsOfNatToString(n: nat)
    ensures DigitsValue(NatToString(n)) == n
  {
    if n >= 10 {
      var s := NatToString(n);
      DigitsOfNatToString(n / 10);
      assert s[..|s| - 1] == NatToString(n / 10);
    }
  }

  /** Printing a number in range and parsing it back gives the number. */
  lemma ParseIntToString(i: int, lo: int, hi: int)
    requires lo <= i <= hi
    ensures ParseInteger(IntToString(i), lo, hi) == Some(i)
  {
    var s := IntToString(i);
    if i < 0 {
      var n := NatToString(-i);
      DigitsOfNatToString(-i);
      assert s == "-" + n;
      assert s[0] == '-' && s[1..] == n;
      assert n[0] != '-' && n[0] != '+' by { assert IsDigit(n[0]); }
    } else {
      var n := NatToString(i);
      DigitsOfNatToString(i);
      assert s == n;
      assert n[0] != '-' && n[0] != '+' by { assert IsDigit(n[0]); }
    }
  }

  const INT_MIN: int := -0x8000_0000
  const INT_MAX: int := 0x7FFF_FFFF
  const LONG_MIN: int := -0x8000_0000_0000_0000
  const LONG_MAX: int := 0x7FFF_FFFF_FFFF_FFFF

  /** Two's-complement wrap-around of an unbounded value into a Java int. */
  function WrapInt(x: int): (r: int)
    ensures INT_MIN <= r <= INT_MAX
    ensures INT_MIN <= x <= INT_MAX ==> r == x
  {
    (x - INT_MIN) % 0x1_0000_0000 + INT_MIN
  }

  /** Two's-complement wrap-around of an unbounded value into a Java long. */
  function WrapLong(x: int): (r: int)
    ensures LONG_MIN <= r <= LONG_MAX
    ensures LONG_MIN <= x <= LONG_MAX ==> r == x
  {
    (x - LONG_MIN) % 0x1_0000_0000_0000_0000 + LONG_MIN
  }

  /** String.hashCode: s[0]*31^(n-1) + ... + s[n-1], in int arithmetic. */
  function StringHash(s: string): (h: int)
    ensures INT_MIN <= h <= INT_MAX
  {
    if s == [] then 0 else WrapInt(31 * StringHash(s[..|s| - 1]) + s[|s| - 1] as int)
  }
}
