/** Helpers shared by every screen: optional values, the case-insensitive
    substring search used by all list filters, the `Array.filter` and
    `Array.join` shapes the screens are written with, and the VAT rate. */
module Common {

  datatype Option<+T> = None | Some(value: T)

  datatype Result<+R, +E> = Success(value: R) | Failure(error: E)

  /** JavaScript's `s || null` on a string: the empty string is stored as null. */
  function NullIfEmpty(s: string): (r: Option<string>)
    ensures r.None? <==> s == ""
    ensures r.Some? ==> r.value == s
  {
    if s == "" then None else Some(s)
  }

  /** JavaScript's `xs?.length || 0`: a query that returned no data counts as empty. */
  function LengthOrZero<T>(xs: Option<seq<T>>): (n: nat)
    ensures xs.None? ==> n == 0
    ensures xs.Some? ==> n == |xs.value|
  {
    match xs
    case None => 0
    case Some(s) => |s|
  }

  /** `notes && <line>` on a receipt: an absent or empty note prints no line. */
  function NoteLine(notes: Option<string>): (line: Option<string>)
    ensures line.Some? <==> notes.Some? && notes.value != ""
    ensures line.Some? ==> line.value == notes.value
  {
    if notes.Some? && notes.value != "" then notes else None
  }

  // ---------------------------------------------------------------------
  // Case-insensitive search (ASCII letters only)
  // ---------------------------------------------------------------------

  predicate IsUpper(c: char) { 'A' <= c <= 'Z' }

  function LowerChar(c: char): (r: char)
    ensures !IsUpper(r)
    ensures r == c || (IsUpper(c) && r as int == c as int + 32)
  {
    if IsUpper(c) then (c as int + 32) as char else c
  }

  function Lower(s: string): (r: string)
    ensures |r| == |s|
    ensures forall i :: 0 <= i < |r| ==> !IsUpper(r[i])
    ensures forall i :: 0 <= i < |s| ==>
      (if IsUpper(s[i]) then r[i] as int == s[i] as int + 32 else r[i] == s[i])
  {
    seq(|s|, i requires 0 <= i < |s| => LowerChar(s[i]))
  }

  lemma LowerIdempotent(s: string)
    ensures Lower(Lower(s)) == Lower(s)
  {
    assert forall i :: 0 <= i < |s| ==> Lower(Lower(s))[i] == Lower(s)[i];
  }

  predicate IsPrefix(p: string, s: string) {
    |p| <= |s| && s[..|p|] == p
  }

  /** JavaScript's `s.includes(sub)`. */
  predicate Contains(s: string, sub: string)
    decreases |s|
  {
    IsPrefix(sub, s) || (|s| > 0 && Contains(s[1..], sub))
  }

  predicate OccursAt(s: string, sub: string, i: int) {
    0 <= i && i + |sub| <= |s| && s[i..i + |sub|] == sub
  }

  /** `Contains` holds exactly when `sub` occurs at some position of `s`. */
  lemma {:induction false} ContainsAt(s: string, sub: string)
    ensures Contains(s, sub) <==> exists i :: OccursAt(s, sub, i)
    decreases |s|
  {
    if IsPrefix(sub, s) {
      assert s[0..0 + |sub|] == s[..|sub|];
      assert OccursAt(s, sub, 0);
    } else if |s| > 0 {
      ContainsAt(s[1..], sub);
      if Contains(s[1..], sub) {
        var i :| OccursAt(s[1..], sub, i);
        assert s[1..][i..i + |sub|] == s[i + 1..i + 1 + |sub|];
        assert OccursAt(s, sub, i + 1);
      }
      if exists i :: OccursAt(s, sub, i) {
        var i :| OccursAt(s, sub, i);
        assert s[0..|sub|] == s[..|sub|];
        assert i > 0;
        assert s[1..][i - 1..i - 1 + |sub|] == s[i..i + |sub|];
        assert OccursAt(s[1..], sub, i - 1);
      }
    } else {
      assert |sub| > 0;
    }
  }

  /** `field.toLowerCase().includes(search.toLowerCase())`. */
  predicate MatchesSearch(field: string, search: string) {
    Contains(Lower(field), Lower(search))
  }

  lemma EmptySearchMatches(field: string)
    ensures MatchesSearch(field, "")
  {
  }

  /** A search matches a field regardless of the letter case of either side. */
  lemma MatchesSearchIgnoresCase(field: string, search: string)
    ensures MatchesSearch(Lower(field), search) == MatchesSearch(field, search)
    ensures MatchesSearch(field, Lower(search)) == MatchesSearch(field, search)
  {
    LowerIdempotent(field);
    LowerIdempotent(search);
  }

  // ---------------------------------------------------------------------
  // Array.filter, .length of a filter
  // ---------------------------------------------------------------------

  /** `a` can be obtained from `b` by deleting elements: `a` keeps `b`'s order. */
  ghost predicate SubsequenceOf<T>(a: seq<T>, b: seq<T>)
    decreases |b|
  {
    if a == [] then true
    else if b == [] then false
    else (a[0] == b[0] && SubsequenceOf(a[1..], b[1..])) || SubsequenceOf(a, b[1..])
  }

  /** JavaScript's `s.filter(p)`. */
  function Filter<T>(s: seq<T>, p: T -> bool): (r: seq<T>)
    ensures |r| <= |s|
    ensures forall i :: 0 <= i < |r| ==> r[i] in s && p(r[i])
    ensures forall i :: 0 <= i < |s| && p(s[i]) ==> s[i] in r
    ensures SubsequenceOf(r, s)
    ensures forall i {:trigger multiset(r)[s[i]]} :: 0 <= i < |s| ==>
      multiset(r)[s[i]] == if p(s[i]) then multiset(s)[s[i]] else 0
    decreases |s|
  {
    if s == [] then []
    else
      assert s == [s[0]] + s[1..];
      if p(s[0]) then [s[0]] + Filter(s[1..], p)
      else Filter(s[1..], p)
  }

  lemma {:induction false} FilterAppend<T>(a: seq<T>, b: seq<T>, p: T -> bool)
    ensures Filter(a + b, p) == Filter(a, p) + Filter(b, p)
    decreases |a|
  {
    if a == [] {
      assert a + b == b;
    } else {
      assert (a + b)[1..] == a[1..] + b;
      FilterAppend(a[1..], b, p);
    }
  }

  /** Filtering a list one element longer appends that element exactly when it qualifies. */
  lemma FilterSnoc<T>(s: seq<T>, x: T, p: T -> bool)
    ensures Filter(s + [x], p) == Filter(s, p) + (if p(x) then [x] else [])
  {
    FilterAppend(s, [x], p);
    assert [x][1..] == [];
  }

  /** A predicate that holds of every element keeps the whole list. */
  lemma {:induction false} FilterAll<T>(s: seq<T>, p: T -> bool)
    requires forall i :: 0 <= i < |s| ==> p(s[i])
    ensures Filter(s, p) == s
    decreases |s|
  {
    if s != [] {
      FilterAll(s[1..], p);
    }
  }

  /** A predicate that holds of no element keeps nothing. */
  lemma {:induction false} FilterNone<T>(s: seq<T>, p: T -> bool)
    requires forall i :: 0 <= i < |s| ==> !p(s[i])
    ensures Filter(s, p) == []
    decreases |s|
  {
    if s != [] {
      FilterNone(s[1..], p);
    }
  }

  /** JavaScript's `s.find(p)`: the first element `p` holds of, if any. */
  function Find<T>(s: seq<T>, p: T -> bool): (r: Option<T>)
    ensures r.None? <==> forall k :: 0 <= k < |s| ==> !p(s[k])
    ensures r.Some? ==> exists k :: 0 <= k < |s| && s[k] == r.value && p(s[k]) &&
                                    forall j :: 0 <= j < k ==> !p(s[j])
    decreases |s|
  {
    if s == [] then None
    else if p(s[0]) then Some(s[0])
    else
      var r := Find(s[1..], p);
      assert r.Some? ==> exists k :: 1 <= k < |s| && s[k] == r.value && p(s[k]) &&
                                     forall j :: 0 <= j < k ==> !p(s[j]) by {
        if r.Some? {
          var k :| 0 <= k < |s[1..]| && s[1..][k] == r.value && p(s[1..][k]) &&
                   forall j :: 0 <= j < k ==> !p(s[1..][j]);
          assert s[k + 1] == r.value;
          assert forall j :: 1 <= j < k + 1 ==> s[j] == s[1..][j - 1];
        }
      }
      r
  }

  /** The positions of `s` the predicate holds at. */
  ghost function Positions<T>(s: seq<T>, p: T -> bool): set<int> {
    set i | 0 <= i < |s| && p(s[i])
  }

  /** JavaScript's `s.filter(p).length`. */
  function Count<T>(s: seq<T>, p: T -> bool): (n: nat)
    ensures n <= |s|
    ensures n == |Positions(s, p)|
  {
    FilterLengthCountsPositions(s, p);
    |Filter(s, p)|
  }

  /** Appending one element adds its position exactly when it qualifies. */
  lemma PositionsSnoc<T>(s: seq<T>, x: T, p: T -> bool)
    ensures Positions(s + [x], p) == Positions(s, p) + (if p(x) then {|s|} else {})
    ensures |s| !in Positions(s, p)
  {
    var t := s + [x];
    forall i | 0 <= i < |s|
      ensures t[i] == s[i]
    {
    }
  }

  /** The length of a filter is the number of positions the predicate holds at. */
  lemma {:induction false} FilterLengthCountsPositions<T>(s: seq<T>, p: T -> bool)
    ensures |Filter(s, p)| == |Positions(s, p)|
    decreases |s|
  {
    if s == [] {
      assert Positions(s, p) == {};
    } else {
      var init := s[..|s| - 1];
      var x := s[|s| - 1];
      assert s == init + [x];
      FilterAppend(init, [x], p);
      FilterLengthCountsPositions(init, p);
      PositionsSnoc(init, x, p);
      assert [x][1..] == [];
    }
  }

  lemma {:induction false} CountAppend<T>(a: seq<T>, b: seq<T>, p: T -> bool)
    ensures Count(a + b, p) == Count(a, p) + Count(b, p)
  {
    FilterAppend(a, b, p);
  }

  // ---------------------------------------------------------------------
  // Array.join and its inverse
  // ---------------------------------------------------------------------

  /** JavaScript's `parts.join(sep)` for a one-character separator. */
  function Join(parts: seq<string>, sep: char): string
    decreases |parts|
  {
    if |parts| == 0 then ""
    else if |parts| == 1 then parts[0]
    else parts[0] + [sep] + Join(parts[1..], sep)
  }

  /** JavaScript's `s.split(sep)` for a one-character separator. */
  function Split(s: string, sep: char): (r: seq<string>)
    ensures |r| >= 1
    decreases |s|
  {
    if s == [] then [""]
    else if s[0] == sep then [""] + Split(s[1..], sep)
    else
      var rest := Split(s[1..], sep);
      [[s[0]] + rest[0]] + rest[1..]
  }

  lemma {:induction false} SplitAfterWord(w: string, t: string, sep: char)
    requires sep !in w
    ensures Split(w + t, sep) == [w + Split(t, sep)[0]] + Split(t, sep)[1..]
    decreases |w|
  {
    if w == [] {
      assert w + t == t;
      assert w + Split(t, sep)[0] == Split(t, sep)[0];
      assert Split(t, sep) == [Split(t, sep)[0]] + Split(t, sep)[1..];
    } else {
      assert (w + t)[0] == w[0];
      assert (w + t)[1..] == w[1..] + t;
      SplitAfterWord(w[1..], t, sep);
      assert [w[0]] + (w[1..] + Split(t, sep)[0]) == w + Split(t, sep)[0];
    }
  }

  lemma {:induction false} JoinWithout(parts: seq<string>, sep: char, c: char)
    requires c != sep
    requires forall i :: 0 <= i < |parts| ==> c !in parts[i]
    ensures c !in Join(parts, sep)
    decreases |parts|
  {
    if |parts| > 1 {
      JoinWithout(parts[1..], sep, c);
    }
  }

  /** Splitting a join on its separator gives the parts back, provided no part
      contains the separator. */
  lemma {:induction false} SplitJoin(parts: seq<string>, sep: char)
    requires |parts| >= 1
    requires forall i :: 0 <= i < |parts| ==> sep !in parts[i]
    ensures Split(Join(parts, sep), sep) == parts
    decreases |parts|
  {
    if |parts| == 1 {
      SplitAfterWord(parts[0], "", sep);
      assert parts[0] + "" == parts[0];
      assert parts == [parts[0]];
    } else {
      var tail := Join(parts[1..], sep);
      SplitJoin(parts[1..], sep);
      assert parts[0] + [sep] + tail == parts[0] + ([sep] + tail);
      SplitAfterWord(parts[0], [sep] + tail, sep);
      assert ([sep] + tail)[1..] == tail;
      assert Split([sep] + tail, sep) == [""] + parts[1..];
      assert parts[0] + "" == parts[0];
      assert parts == [parts[0]] + parts[1..];
    }
  }

  // ---------------------------------------------------------------------
  // Money and VAT
  // ---------------------------------------------------------------------

  /** Value-added tax charged on receipts: 7.5 %. */
  const VatRate: real := 0.075

  function Vat(amount: real): (tax: real)
    ensures tax * 40.0 == amount * 3.0
  {
    amount * VatRate
  }

  /** The amount plus its VAT. */
  function WithVat(amount: real): (total: real)
    ensures total == amount * 1.075
    ensures amount >= 0.0 ==> total >= amount
    ensures total - amount == Vat(amount)
  {
    amount + Vat(amount)
  }

  // ---------------------------------------------------------------------
  // Decimal rendering of whole numbers (JavaScript's String(n) for n >= 0)
  // ---------------------------------------------------------------------

  predicate IsDigit(c: char) { '0' <= c <= '9' }

  function DigitChar(d: nat): (c: char)
    requires d < 10
    ensures IsDigit(c)
    ensures c as int - '0' as int == d
  {
    ('0' as int + d) as char
  }

  function NatToString(n: nat): (s: string)
    ensures |s| >= 1
    ensures forall i :: 0 <= i < |s| ==> IsDigit(s[i])
    decreases n
  {
    if n < 10 then [DigitChar(n)] else NatToString(n / 10) + [DigitChar(n % 10)]
  }

  function DigitsValue(s: string): int
    decreases |s|
  {
    if s == [] then 0 else 10 * DigitsValue(s[..|s| - 1]) + (s[|s| - 1] as int - '0' as int)
  }

  /** Reading the rendered digits back gives the number. */
  lemma {:induction false} NatToStringValue(n: nat)
    ensures DigitsValue(NatToString(n)) == n
    decreases n
  {
    if n >= 10 {
      NatToStringValue(n / 10);
      var s := NatToString(n);
      assert s[..|s| - 1] == NatToString(n / 10);
    }
  }
}
