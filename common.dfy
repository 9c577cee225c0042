/** Value-level helpers shared by the backend and screen models: an Option
    type, the JavaScript string operations the code relies on (toLowerCase,
    trim, includes, template-literal number printing), and sorting by a key. */
module Common {

  datatype Option<T> = None | Some(value: T)

  /** `v ?? d`. */
  function OrDefault<T>(v: Option<T>, d: T): T
  {
    if v.Some? then v.value else d
  }

  /** `s || d` on a string: "" falls back to d. */
  function OrText(s: string, d: string): (r: string)
    ensures s != "" ==> r == s
    ensures s == "" ==> r == d
  {
    if s == "" then d else s
  }

  // ---------------------------------------------------------------------
  // Characters and case

  /** String.prototype.toLowerCase on one character, for the ASCII range. */
  function LowerChar(c: char): (d: char)
    ensures 'A' <= c <= 'Z' ==> d as int == c as int + 32
    ensures !('A' <= c <= 'Z') ==> d == c
  {
    if 'A' <= c <= 'Z' then (c as int + 32) as char else c
  }

  function Lower(s: string): (r: string)
    ensures |r| == |s|
    ensures forall i :: 0 <= i < |s| ==> r[i] == LowerChar(s[i])
  {
    if s == [] then [] else [LowerChar(s[0])] + Lower(s[1..])
  }

  lemma {:induction false} LowerIdempotent(s: string)
    ensures Lower(Lower(s)) == Lower(s)
  {
    if s != [] {
      LowerIdempotent(s[1..]);
      assert Lower(s)[1..] == Lower(s[1..]);
    }
  }

  /** The white-space and line-terminator characters String.prototype.trim
      removes (the ASCII ones, no-break space and the byte-order mark). */
  predicate IsSpace(c: char)
  {
    c == ' ' || c == '\t' || c == '\n' || c == '\r' || c == '\U{000B}' || c == '\U{000C}'
    || c == '\U{00A0}' || c == '\U{FEFF}'
  }

  predicate AllSpace(s: string)
  {
    forall i :: 0 <= i < |s| ==> IsSpace(s[i])
  }

  function TrimStart(s: string): (r: string)
    ensures |r| <= |s| && r == s[|s| - |r|..]
    ensures AllSpace(s[..|s| - |r|])
    ensures r != [] ==> !IsSpace(r[0])
  {
    if s != [] && IsSpace(s[0]) then TrimStart(s[1..]) else s
  }

  function TrimEnd(s: string): (r: string)
    ensures |r| <= |s| && r == s[..|r|]
    ensures AllSpace(s[|r|..])
    ensures r != [] ==> !IsSpace(r[|r| - 1])
  {
    if s != [] && IsSpace(s[|s| - 1]) then TrimEnd(s[..|s| - 1]) else s
  }

  /** Cutting white space off the front (up to i) and then off the back
      leaves a slice of s with white space on both sides. */
  lemma TrimSlice(s: string, i: nat, t: string, r: string)
    requires i <= |s| && t == s[i..] && AllSpace(s[..i])
    requires |r| <= |t| && r == t[..|r|] && AllSpace(t[|r|..])
    ensures exists i, j :: 0 <= i <= j <= |s| && r == s[i..j] && AllSpace(s[..i]) && AllSpace(s[j..])
  {
    var j := i + |r|;
    assert r == s[i..j];
    assert s[j..] == t[|r|..];
  }

  /** Trimming the back of a string with no white space in front keeps
      the front free of it. */
  lemma TrimBothEnds(t: string)
    requires t != [] ==> !IsSpace(t[0])
    ensures var r := TrimEnd(t); r != [] ==> !IsSpace(r[0]) && !IsSpace(r[|r| - 1])
  {
    var r := TrimEnd(t);
    assert r != [] ==> r[0] == t[0];
  }

  /** String.prototype.trim: the slice of s between its leading and trailing
      white space. */
  function Trim(s: string): (r: string)
    ensures exists i, j :: 0 <= i <= j <= |s| && r == s[i..j] && AllSpace(s[..i]) && AllSpace(s[j..])
    ensures r != [] ==> !IsSpace(r[0]) && !IsSpace(r[|r| - 1])
  {
    TrimSlice(s, |s| - |TrimStart(s)|, TrimStart(s), TrimEnd(TrimStart(s)));
    TrimBothEnds(TrimStart(s));
    TrimEnd(TrimStart(s))
  }

  /** A string whose trim() is "" -- the `!x.trim()` test of the screens. */
  predicate IsBlank(s: string)
  {
    Trim(s) == ""
  }

  lemma BlankIffAllSpace(s: string)
    ensures IsBlank(s) <==> AllSpace(s)
  {
  }

  // ---------------------------------------------------------------------
  // Substrings: String.prototype.includes

  predicate IsPrefix(p: string, s: string)
  {
    |p| <= |s| && s[..|p|] == p
  }

  predicate OccursAt(sub: string, s: string, i: int)
  {
    0 <= i && i + |sub| <= |s| && s[i..i + |sub|] == sub
  }

  /** s.includes(sub). */
  function Contains(s: string, sub: string): (r: bool)
    ensures r <==> exists i :: OccursAt(sub, s, i)
    decreases |s|
  {
    if IsPrefix(sub, s) then
      assert OccursAt(sub, s, 0);
      true
    else if s == [] then
      false
    else
      OccursInTail(s, sub);
      Contains(s[1..], sub)
  }

  /** An occurrence away from the front of s is an occurrence in s[1..]. */
  lemma OccursInTail(s: string, sub: string)
    requires s != [] && !OccursAt(sub, s, 0)
    ensures (exists i :: OccursAt(sub, s, i)) <==> (exists i :: OccursAt(sub, s[1..], i))
  {
    if i :| OccursAt(sub, s, i) {
      assert s[1..][i - 1..i - 1 + |sub|] == s[i..i + |sub|];
      assert OccursAt(sub, s[1..], i - 1);
    }
    if i :| OccursAt(sub, s[1..], i) {
      assert s[1..][i..i + |sub|] == s[i + 1..i + 1 + |sub|];
      assert OccursAt(sub, s, i + 1);
    }
  }

  /** s.toLowerCase().includes(q) where q has already been lower-cased. */
  predicate ContainsFolded(s: string, q: string)
  {
    Contains(Lower(s), q)
  }

  lemma EveryStringContainsEmpty(s: string)
    ensures Contains(s, "")
  {
    assert OccursAt("", s, 0);
  }

  // ---------------------------------------------------------------------
  // Numbers printed by template literals

  function DigitChar(d: nat): (c: char)
    requires d < 10
    ensures '0' <= c <= '9'
  {
    (('0' as int) + d) as char
  }

  predicate AllDigits(s: string)
  {
    forall i :: 0 <= i < |s| ==> '0' <= s[i] <= '9'
  }

  /** `${n}` for a non-negative integer: its shortest decimal spelling. */
  function NatToString(n: nat): (s: string)
    ensures |s| >= 1 && AllDigits(s)
    ensures s[0] == '0' ==> n == 0
  {
    if n < 10 then [DigitChar(n)] else NatToString(n / 10) + [DigitChar(n % 10)]
  }

  function DigitsValue(s: string): nat
    requires AllDigits(s)
  {
    if s == [] then 0 else DigitsValue(s[..|s| - 1]) * 10 + (s[|s| - 1] as int - '0' as int)
  }

  /** Reading back the printed number gives the number: printing is injective. */
  lemma {:induction false} NatToStringRoundTrip(n: nat)
    ensures DigitsValue(NatToString(n)) == n
  {
    if n >= 10 {
      NatToStringRoundTrip(n / 10);
      var s := NatToString(n);
      assert s[..|s| - 1] == NatToString(n / 10);
    }
  }

  lemma NatToStringInjective(m: nat, n: nat)
    requires NatToString(m) == NatToString(n)
    ensures m == n
  {
    NatToStringRoundTrip(m);
    NatToStringRoundTrip(n);
  }

  /** `${i}` for any integer. */
  function IntToString(i: int): (s: string)
    ensures i >= 0 ==> s == NatToString(i)
    ensures i < 0 ==> s == "-" + NatToString(-i)
  {
    if i < 0 then "-" + NatToString(-i) else NatToString(i)
  }

  // ---------------------------------------------------------------------
  // Array.prototype.filter and filter(...).length

  function Filter<T>(p: T -> bool, s: seq<T>): (r: seq<T>)
    ensures |r| <= |s|
    ensures forall i :: 0 <= i < |r| ==> p(r[i]) && r[i] in s
    ensures forall i :: 0 <= i < |s| && p(s[i]) ==> s[i] in r
    ensures multiset(r) <= multiset(s)
  {
    if s == [] then []
    else
      var rest := Filter(p, s[..|s| - 1]);
      assert s == s[..|s| - 1] + [s[|s| - 1]];
      if p(s[|s| - 1]) then rest + [s[|s| - 1]] else rest
  }

  function CountWhere<T>(p: T -> bool, s: seq<T>): nat
  {
    if s == [] then 0 else CountWhere(p, s[..|s| - 1]) + (if p(s[|s| - 1]) then 1 else 0)
  }

  lemma {:induction false} FilterLength<T>(p: T -> bool, s: seq<T>)
    ensures |Filter(p, s)| == CountWhere(p, s)
  {
    if s != [] {
      FilterLength(p, s[..|s| - 1]);
    }
  }

  lemma {:induction false} FilterAll<T>(p: T -> bool, s: seq<T>)
    requires forall i :: 0 <= i < |s| ==> p(s[i])
    ensures Filter(p, s) == s
  {
    if s != [] {
      FilterAll(p, s[..|s| - 1]);
      assert s == s[..|s| - 1] + [s[|s| - 1]];
    }
  }

  lemma InMultiset<T>(x: T, a: seq<T>, b: seq<T>)
    requires x in a && multiset(a) == multiset(b)
    ensures x in b
  {
    assert x in multiset(a);
  }

  lemma FilterSingle<T>(p: T -> bool, x: T)
    ensures Filter(p, [x]) == if p(x) then [x] else []
  {
    assert [x][..0] == [];
  }

  lemma {:induction false} FilterAppend<T>(p: T -> bool, a: seq<T>, b: seq<T>)
    ensures Filter(p, a + b) == Filter(p, a) + Filter(p, b)
    decreases |b|
  {
    if b == [] {
      assert a + b == a;
    } else {
      assert (a + b)[..|a + b| - 1] == a + b[..|b| - 1];
      assert (a + b)[|a + b| - 1] == b[|b| - 1];
      FilterAppend(p, a, b[..|b| - 1]);
    }
  }

  lemma {:induction false} CountWhereAppend<T>(p: T -> bool, a: seq<T>, b: seq<T>)
    ensures CountWhere(p, a + b) == CountWhere(p, a) + CountWhere(p, b)
    decreases |b|
  {
    if b != [] {
      assert (a + b)[..|a + b| - 1] == a + b[..|b| - 1];
      assert (a + b)[|a + b| - 1] == b[|b| - 1];
      CountWhereAppend(p, a, b[..|b| - 1]);
    } else {
      assert a + b == a;
    }
  }

  /** A strictly ascending sequence holds as many distinct values as entries. */
  lemma {:induction false} AscendingCard(s: seq<int>)
    requires forall i, j :: 0 <= i < j < |s| ==> s[i] < s[j]
    ensures |set x | x in s| == |s|
  {
    if s != [] {
      var front := s[..|s| - 1];
      AscendingCard(front);
      assert (set x | x in s) == (set x | x in front) + {s[|s| - 1]};
      assert s[|s| - 1] !in front;
    }
  }

  /** No value occurs twice. */
  predicate Distinct<T(==)>(s: seq<T>)
  {
    forall i, j :: 0 <= i < j < |s| ==> s[i] != s[j]
  }

  /** A value occurs at most once in a sequence without repeats. */
  lemma {:induction false} DistinctCount<T>(s: seq<T>, x: T)
    requires Distinct(s)
    ensures multiset(s)[x] <= 1
  {
    if s != [] {
      var front := s[..|s| - 1];
      DistinctCount(front, x);
      assert s == front + [s[|s| - 1]];
      assert s[|s| - 1] !in front;
    }
  }

  /** A value at two positions occurs at least twice. */
  lemma TwiceCount<T>(s: seq<T>, i: nat, j: nat)
    requires i < j < |s|
    ensures s[i] == s[j] ==> multiset(s)[s[j]] >= 2
  {
    assert s == s[..j] + [s[j]] + s[j + 1..];
    assert s[i] in s[..j];
  }

  /** A permutation of a sequence without repeats has none either. */
  lemma DistinctPermutation<T>(a: seq<T>, b: seq<T>)
    requires multiset(a) == multiset(b) && Distinct(a)
    ensures Distinct(b)
  {
    forall i, j | 0 <= i < j < |b| ensures b[i] != b[j] {
      DistinctCount(a, b[j]);
      TwiceCount(b, i, j);
    }
  }

  // ---------------------------------------------------------------------
  // Insertion sorts by a key

  predicate SortedByInt<T>(s: seq<T>, key: T -> int)
  {
    forall i, j :: 0 <= i < j < |s| ==> key(s[i]) <= key(s[j])
  }

  /** A value whose key bounds every key of a sorted sequence can go last. */
  lemma AppendSortedInt<T>(s: seq<T>, y: T, key: T -> int)
    requires SortedByInt(s, key)
    requires forall i :: 0 <= i < |s| ==> key(s[i]) <= key(y)
    ensures SortedByInt(s + [y], key)
  {
  }

  /** After inserting x into front, every key is still bounded by key(last). */
  lemma InsertedBelowInt<T>(x: T, front: seq<T>, rest: seq<T>, last: T, key: T -> int)
    requires forall i :: 0 <= i < |rest| ==> rest[i] == x || rest[i] in front
    requires key(x) <= key(last)
    requires forall k :: 0 <= k < |front| ==> key(front[k]) <= key(last)
    ensures forall i :: 0 <= i < |rest| ==> key(rest[i]) <= key(last)
  {
    forall i | 0 <= i < |rest| ensures key(rest[i]) <= key(last) {
      if rest[i] != x {
        var k :| 0 <= k < |front| && front[k] == rest[i];
      }
    }
  }

  /** The front of a sorted sequence is sorted and bounded by its last key. */
  lemma SortedFrontInt<T>(s: seq<T>, key: T -> int)
    requires SortedByInt(s, key) && s != []
    ensures SortedByInt(s[..|s| - 1], key)
    ensures forall k :: 0 <= k < |s| - 1 ==> key(s[k]) <= key(s[|s| - 1])
  {
  }

  /** Appending the same value keeps "x or a member" membership. */
  lemma SnocMembers<T>(x: T, front: seq<T>, rest: seq<T>, last: T)
    requires forall i :: 0 <= i < |rest| ==> rest[i] == x || rest[i] in front
    ensures forall i :: 0 <= i < |rest| + 1 ==> (rest + [last])[i] == x || (rest + [last])[i] in front + [last]
  {
  }

  /** The recursive step of InsertByInt: x went into the front of s, and the
      last element of s, whose key exceeds key(x), goes back at the end. */
  lemma InsertBeforeLastInt<T>(x: T, s: seq<T>, last: T, rest: seq<T>, key: T -> int)
    requires SortedByInt(s, key) && s != [] && last == s[|s| - 1]
    requires key(x) < key(last)
    requires SortedByInt(rest, key)
    requires multiset(rest) == multiset(s[..|s| - 1]) + multiset{x}
    requires forall i :: 0 <= i < |rest| ==> rest[i] == x || rest[i] in s[..|s| - 1]
    ensures SortedByInt(rest + [last], key)
    ensures multiset(rest + [last]) == multiset(s) + multiset{x}
    ensures forall i :: 0 <= i < |rest| + 1 ==> (rest + [last])[i] == x || (rest + [last])[i] in s
  {
    var front := s[..|s| - 1];
    assert s == front + [last];
    SortedFrontInt(s, key);
    InsertedBelowInt(x, front, rest, last, key);
    AppendSortedInt(rest, last, key);
    SnocMembers(x, front, rest, last);
  }

  /** Inserts x after every element whose key is at most key(x). */
  function InsertByInt<T>(x: T, s: seq<T>, key: T -> int): (r: seq<T>)
    requires SortedByInt(s, key)
    ensures SortedByInt(r, key)
    ensures multiset(r) == multiset(s) + multiset{x}
    ensures |r| == |s| + 1
    ensures forall i :: 0 <= i < |r| ==> r[i] == x || r[i] in s
  {
    if s == [] then [x]
    else if key(s[|s| - 1]) <= key(x) then
      AppendSortedInt(s, x, key);
      s + [x]
    else
      SortedFrontInt(s, key);
      var rest := InsertByInt(x, s[..|s| - 1], key);
      InsertBeforeLastInt(x, s, s[|s| - 1], rest, key);
      rest + [s[|s| - 1]]
  }

  function SortByInt<T>(s: seq<T>, key: T -> int): (r: seq<T>)
    ensures SortedByInt(r, key)
    ensures multiset(r) == multiset(s)
    ensures |r| == |s|
  {
    if s == [] then []
    else
      assert s == s[..|s| - 1] + [s[|s| - 1]];
      InsertByInt(s[|s| - 1], SortByInt(s[..|s| - 1], key), key)
  }

  /** Two values already in order are left as they are. */
  lemma SortPairInOrder<T>(a: T, b: T, key: T -> string)
    requires TextLe(key(a), key(b))
    ensures SortByText([a, b], key) == [a, b]
  {
    assert [a, b][..1] == [a];
    assert [a][..0] == [];
    assert [a, b] == [a] + [b];
  }

  /** Code-point order on strings, the model of String.prototype.localeCompare. */
  predicate TextLe(a: string, b: string)
    decreases |a|
  {
    a == [] || (b != [] && (a[0] < b[0] || (a[0] == b[0] && TextLe(a[1..], b[1..]))))
  }

  lemma {:induction false} TextLeTotal(a: string, b: string)
    ensures TextLe(a, b) || TextLe(b, a)
    decreases |a|
  {
    if a != [] && b != [] && a[0] == b[0] {
      TextLeTotal(a[1..], b[1..]);
    }
  }

  lemma {:induction false} TextLeTransitive(a: string, b: string, c: string)
    requires TextLe(a, b) && TextLe(b, c)
    ensures TextLe(a, c)
    decreases |a|
  {
    if a != [] && b != [] && c != [] && a[0] == b[0] && b[0] == c[0] {
      TextLeTransitive(a[1..], b[1..], c[1..]);
    }
  }

  lemma {:induction false} TextLeAntisymmetric(a: string, b: string)
    requires TextLe(a, b) && TextLe(b, a)
    ensures a == b
    decreases |a|
  {
    if a != [] {
      TextLeAntisymmetric(a[1..], b[1..]);
    }
  }

  predicate SortedByText<T>(s: seq<T>, key: T -> string)
  {
    forall i, j :: 0 <= i < j < |s| ==> TextLe(key(s[i]), key(s[j]))
  }

  /** A value whose key follows every key of a sorted sequence can go last. */
  lemma AppendSortedText<T>(s: seq<T>, y: T, key: T -> string)
    requires SortedByText(s, key)
    requires forall i :: 0 <= i < |s| ==> TextLe(key(s[i]), key(y))
    ensures SortedByText(s + [y], key)
  {
  }

  /** After inserting x into front, every key still precedes key(last). */
  lemma InsertedBelowText<T>(x: T, front: seq<T>, rest: seq<T>, last: T, key: T -> string)
    requires forall i :: 0 <= i < |rest| ==> rest[i] == x || rest[i] in front
    requires TextLe(key(x), key(last))
    requires forall k :: 0 <= k < |front| ==> TextLe(key(front[k]), key(last))
    ensures forall i :: 0 <= i < |rest| ==> TextLe(key(rest[i]), key(last))
  {
    forall i | 0 <= i < |rest| ensures TextLe(key(rest[i]), key(last)) {
      if rest[i] != x {
        var k :| 0 <= k < |front| && front[k] == rest[i];
      }
    }
  }

  /** The front of a sorted sequence is sorted and precedes its last key. */
  lemma SortedFrontText<T>(s: seq<T>, key: T -> string)
    requires SortedByText(s, key) && s != []
    ensures SortedByText(s[..|s| - 1], key)
    ensures forall k :: 0 <= k < |s| - 1 ==> TextLe(key(s[k]), key(s[|s| - 1]))
  {
  }

  /** x whose key follows the last key of s goes at the end. */
  lemma InsertLastText<T>(x: T, s: seq<T>, key: T -> string)
    requires SortedByText(s, key) && s != [] && TextLe(key(s[|s| - 1]), key(x))
    ensures SortedByText(s + [x], key)
  {
    forall i | 0 <= i < |s| ensures TextLe(key(s[i]), key(x)) {
      if i < |s| - 1 {
        TextLeTransitive(key(s[i]), key(s[|s| - 1]), key(x));
      }
    }
    AppendSortedText(s, x, key);
  }

  /** The recursive step of InsertByText, as for InsertBeforeLastInt. */
  lemma InsertBeforeLastText<T>(x: T, s: seq<T>, last: T, rest: seq<T>, key: T -> string)
    requires SortedByText(s, key) && s != [] && last == s[|s| - 1]
    requires !TextLe(key(last), key(x))
    requires SortedByText(rest, key)
    requires multiset(rest) == multiset(s[..|s| - 1]) + multiset{x}
    requires forall i :: 0 <= i < |rest| ==> rest[i] == x || rest[i] in s[..|s| - 1]
    ensures SortedByText(rest + [last], key)
    ensures multiset(rest + [last]) == multiset(s) + multiset{x}
    ensures forall i :: 0 <= i < |rest| + 1 ==> (rest + [last])[i] == x || (rest + [last])[i] in s
  {
    var front := s[..|s| - 1];
    assert s == front + [last];
    SortedFrontText(s, key);
    TextLeTotal(key(last), key(x));
    InsertedBelowText(x, front, rest, last, key);
    AppendSortedText(rest, last, key);
    SnocMembers(x, front, rest, last);
  }

  function InsertByText<T>(x: T, s: seq<T>, key: T -> string): (r: seq<T>)
    requires SortedByText(s, key)
    ensures SortedByText(r, key)
    ensures multiset(r) == multiset(s) + multiset{x}
    ensures |r| == |s| + 1
    ensures forall i :: 0 <= i < |r| ==> r[i] == x || r[i] in s
  {
    if s == [] then [x]
    else if TextLe(key(s[|s| - 1]), key(x)) then
      InsertLastText(x, s, key);
      s + [x]
    else
      SortedFrontText(s, key);
      var rest := InsertByText(x, s[..|s| - 1], key);
      InsertBeforeLastText(x, s, s[|s| - 1], rest, key);
      rest + [s[|s| - 1]]
  }

  function SortByText<T>(s: seq<T>, key: T -> string): (r: seq<T>)
    ensures SortedByText(r, key)
    ensures multiset(r) == multiset(s)
    ensures |r| == |s|
  {
    if s == [] then []
    else
      assert s == s[..|s| - 1] + [s[|s| - 1]];
      InsertByText(s[|s| - 1], SortByText(s[..|s| - 1], key), key)
  }

  // ---------------------------------------------------------------------
  // Concatenation of a list of lists

  function Flatten<T>(rows: seq<seq<T>>): seq<T>
  {
    if rows == [] then [] else Flatten(rows[..|rows| - 1]) + rows[|rows| - 1]
  }
}
