/**
 Name order: names compare by their UTF-16 big-endian bytes, and a list of
 named values is sorted by that order into the only sorted list of its contents.
 */
module SortedByName {

  type CodePoint = n: nat | n < 0x11_0000

  /** Python text: any code points, lone surrogates included. */
  type Text = seq<CodePoint>

  predicate IsSurrogate(c: CodePoint) {
    0xD800 <= c <= 0xDFFF
  }

  predicate IsScalarText(t: Text) {
    forall i | 0 <= i < |t| :: !IsSurrogate(t[i])
  }

  // ---- UTF-16 ----

  function Unit(u: nat): seq<nat>
    requires u < 0x1_0000
  {
    [u / 0x100, u % 0x100]
  }

  function Utf16Char(c: CodePoint): (r: seq<nat>)
    ensures |r| == if c < 0x1_0000 then 2 else 4
  {
    if c < 0x1_0000 then Unit(c)
    else Unit(0xD800 + (c - 0x1_0000) / 0x400) + Unit(0xDC00 + (c - 0x1_0000) % 0x400)
  }

  /** `text.encode("utf-16-be")` */
  function Utf16(t: Text): seq<nat> {
    if t == [] then [] else Utf16Char(t[0]) + Utf16(t[1..])
  }

  lemma Utf16CharDetermined(c: CodePoint, x: seq<nat>, d: CodePoint, y: seq<nat>)
    requires !IsSurrogate(c) && !IsSurrogate(d)
    requires Utf16Char(c) + x == Utf16Char(d) + y
    ensures c == d && x == y
  {
    var s, t := Utf16Char(c) + x, Utf16Char(d) + y;
    assert s[0] == Utf16Char(c)[0] && s[1] == Utf16Char(c)[1];
    assert t[0] == Utf16Char(d)[0] && t[1] == Utf16Char(d)[1];
    if c >= 0x1_0000 && d >= 0x1_0000 {
      assert s[2] == Utf16Char(c)[2] && s[3] == Utf16Char(c)[3];
      assert t[2] == Utf16Char(d)[2] && t[3] == Utf16Char(d)[3];
    }
    assert x == s[|Utf16Char(c)|..] && y == t[|Utf16Char(d)|..];
  }

  /** Scalar texts with the same UTF-16 bytes are the same text. */
  lemma {:induction false} Utf16Injective(a: Text, b: Text)
    requires IsScalarText(a) && IsScalarText(b) && Utf16(a) == Utf16(b)
    ensures a == b
  {
    if a != [] && b != [] {
      Utf16CharDetermined(a[0], Utf16(a[1..]), b[0], Utf16(b[1..]));
      Utf16Injective(a[1..], b[1..]);
    }
  }

  // ---- The order ----

  /** Lexicographic order of byte strings. */
  predicate Below(a: seq<nat>, b: seq<nat>) {
    b != [] && (a == [] || a[0] < b[0] || (a[0] == b[0] && Below(a[1..], b[1..])))
  }

  lemma {:induction false} BelowTotal(a: seq<nat>, b: seq<nat>)
    ensures Below(a, b) || a == b || Below(b, a)
    ensures !(Below(a, b) && Below(b, a)) && !Below(a, a)
  {
    if a != [] && b != [] {
      BelowTotal(a[1..], b[1..]);
    }
    if a != [] {
      BelowTotal(a[1..], a[1..]);
    }
  }

  lemma {:induction false} BelowTransitive(a: seq<nat>, b: seq<nat>, c: seq<nat>)
    requires Below(a, b) && Below(b, c)
    ensures Below(a, c)
  {
    if a != [] && b != [] && c != [] && a[0] == b[0] == c[0] {
      BelowTransitive(a[1..], b[1..], c[1..]);
    }
  }

  /** One list of numbers is a proper prefix of the other, or smaller where they first differ. */
  ghost predicate Precedes(a: seq<nat>, b: seq<nat>) {
    || (|a| < |b| && a == b[..|a|])
    || exists k :: 0 <= k < |a| && k < |b| && a[..k] == b[..k] && a[k] < b[k]
  }

  lemma {:induction false} BelowPrecedes(a: seq<nat>, b: seq<nat>)
    ensures Below(a, b) <==> Precedes(a, b)
  {
    if a != [] && b != [] {
      BelowPrecedes(a[1..], b[1..]);
      if a[0] == b[0] {
        PrecedesCons(a[0], a[1..], b[1..]);
        assert a == [a[0]] + a[1..] && b == [a[0]] + b[1..];
      } else if a[0] < b[0] {
        assert a[..0] == b[..0];
      } else {
        NotPrecedes(a, b);
      }
    }
  }

  lemma NotPrecedes(a: seq<nat>, b: seq<nat>)
    requires a != [] && b != [] && a[0] > b[0]
    ensures !Precedes(a, b)
  {
    if |a| < |b| { assert b[..|a|][0] == b[0]; }
    forall k | 0 < k < |a| && k < |b| ensures a[..k] != b[..k] {
      assert a[..k][0] > b[..k][0];
    }
  }

  lemma PrecedesCons(x: nat, a: seq<nat>, b: seq<nat>)
    ensures Precedes([x] + a, [x] + b) <==> Precedes(a, b)
  {
    var u, v := [x] + a, [x] + b;
    if |a| < |b| && a == b[..|a|] {
      assert v[..|u|] == [x] + b[..|a|];
    }
    if |u| < |v| && u == v[..|u|] {
      assert a == u[1..] && b[..|a|] == v[..|u|][1..];
    }
    forall k | 0 <= k < |a| && k < |b| && a[..k] == b[..k] && a[k] < b[k] ensures Precedes(u, v) {
      assert u[..k + 1] == [x] + a[..k] && v[..k + 1] == [x] + b[..k];
      assert u[k + 1] < v[k + 1];
    }
    forall k | 0 <= k < |u| && k < |v| && u[..k] == v[..k] && u[k] < v[k] ensures Precedes(a, b) {
      assert k > 0;
      assert u[..k] == [x] + a[..k - 1] && v[..k] == [x] + b[..k - 1];
      assert a[..k - 1] == u[..k][1..] && b[..k - 1] == v[..k][1..];
      assert a[k - 1] < b[k - 1];
    }
  }

  predicate NameBelow(a: Text, b: Text) {
    Below(Utf16(a), Utf16(b))
  }

  // ---- Sorting named values ----

  datatype Named<T> = Named(name: Text, value: T)

  /** The contents of a list of named values. */
  function MapOf<T>(xs: seq<Named<T>>): map<Text, T> {
    if xs == [] then map[] else MapOf(xs[1..])[xs[0].name := xs[0].value]
  }

  predicate DistinctNames<T>(xs: seq<Named<T>>) {
    xs == [] || (xs[0].name !in MapOf(xs[1..]) && DistinctNames(xs[1..]))
  }

  lemma {:induction false} NameIndex<T>(xs: seq<Named<T>>, name: Text) returns (i: nat)
    requires name in MapOf(xs)
    ensures i < |xs| && xs[i].name == name
  {
    if xs[0].name == name {
      i := 0;
    } else {
      i := NameIndex(xs[1..], name);
      i := i + 1;
    }
  }

  lemma {:induction false} DistinctByIndex<T>(xs: seq<Named<T>>)
    requires forall i, j | 0 <= i < j < |xs| :: xs[i].name != xs[j].name
    ensures DistinctNames(xs)
  {
    if xs != [] {
      DistinctByIndex(xs[1..]);
      if xs[0].name in MapOf(xs[1..]) {
        var i := NameIndex(xs[1..], xs[0].name);
        assert false;
      }
    }
  }

  predicate ScalarNames<T>(xs: seq<Named<T>>) {
    forall name | name in MapOf(xs) :: IsScalarText(name)
  }

  /** Every name is strictly below all the names after it. */
  predicate Sorted<T>(xs: seq<Named<T>>) {
    xs == [] || ((forall name | name in MapOf(xs[1..]) :: NameBelow(xs[0].name, name)) && Sorted(xs[1..]))
  }

  function Insert<T>(x: Named<T>, xs: seq<Named<T>>): seq<Named<T>> {
    if xs == [] || !NameBelow(xs[0].name, x.name) then [x] + xs
    else [xs[0]] + Insert(x, xs[1..])
  }

  function Sort<T>(xs: seq<Named<T>>): seq<Named<T>> {
    if xs == [] then [] else Insert(xs[0], Sort(xs[1..]))
  }

  lemma NamesCompare(a: Text, b: Text)
    requires IsScalarText(a) && IsScalarText(b)
    ensures NameBelow(a, b) || a == b || NameBelow(b, a)
    ensures !(NameBelow(a, b) && NameBelow(b, a))
  {
    BelowTotal(Utf16(a), Utf16(b));
    if Utf16(a) == Utf16(b) { Utf16Injective(a, b); }
  }

  lemma NamesTransitive(a: Text, b: Text, c: Text)
    requires NameBelow(a, b) && NameBelow(b, c)
    ensures NameBelow(a, c)
  {
    BelowTransitive(Utf16(a), Utf16(b), Utf16(c));
  }

  lemma NameNotBelowItself(a: Text)
    ensures !NameBelow(a, a)
  {
    BelowTotal(Utf16(a), Utf16(a));
  }

  lemma ConsFacts<T>(x: Named<T>, xs: seq<Named<T>>)
    ensures MapOf([x] + xs) == MapOf(xs)[x.name := x.value]
    ensures Sorted([x] + xs) <==> Sorted(xs) && forall name | name in MapOf(xs) :: NameBelow(x.name, name)
  {
    assert ([x] + xs)[1..] == xs;
  }

  lemma {:induction false} InsertFacts<T>(x: Named<T>, xs: seq<Named<T>>)
    requires Sorted(xs) && ScalarNames(xs) && IsScalarText(x.name) && x.name !in MapOf(xs)
    ensures Sorted(Insert(x, xs)) && MapOf(Insert(x, xs)) == MapOf(xs)[x.name := x.value]
  {
    hide NameBelow, IsScalarText;
    if xs == [] {
      ConsFacts(x, []);
    } else {
      NamesCompare(xs[0].name, x.name);
      if !NameBelow(xs[0].name, x.name) {
        forall name | name in MapOf(xs) ensures NameBelow(x.name, name) {
          if name != xs[0].name {
            NamesTransitive(x.name, xs[0].name, name);
          }
        }
        ConsFacts(x, xs);
      } else {
        assert ScalarNames(xs[1..]);
        InsertFacts(x, xs[1..]);
        ConsFacts(xs[0], Insert(x, xs[1..]));
      }
    }
  }

  /** Sorting orders the names strictly and keeps the contents. */
  lemma {:induction false} SortFacts<T>(xs: seq<Named<T>>)
    requires DistinctNames(xs) && ScalarNames(xs)
    ensures Sorted(Sort(xs)) && MapOf(Sort(xs)) == MapOf(xs)
  {
    if xs != [] {
      assert ScalarNames(xs[1..]);
      SortFacts(xs[1..]);
      assert IsScalarText(xs[0].name);
      InsertFacts(xs[0], Sort(xs[1..]));
    }
  }

  lemma {:induction false} InsertMembers<T>(x: Named<T>, xs: seq<Named<T>>)
    ensures multiset(Insert(x, xs)) == multiset(xs) + multiset{x}
  {
    if xs != [] && NameBelow(xs[0].name, x.name) {
      InsertMembers(x, xs[1..]);
      assert xs == [xs[0]] + xs[1..];
    }
  }

  /** Sorting permutes. */
  lemma {:induction false} SortMembers<T>(xs: seq<Named<T>>)
    ensures multiset(Sort(xs)) == multiset(xs)
  {
    if xs != [] {
      SortMembers(xs[1..]);
      InsertMembers(xs[0], Sort(xs[1..]));
      assert xs == [xs[0]] + xs[1..];
    }
  }

  lemma SortMembersAt<T>(xs: seq<Named<T>>, i: nat)
    requires i < |Sort(xs)|
    ensures Sort(xs)[i] in xs
  {
    SortMembers(xs);
    assert Sort(xs)[i] in multiset(Sort(xs));
  }

  lemma SortKeeps<T>(xs: seq<Named<T>>, i: nat)
    requires i < |xs|
    ensures xs[i] in Sort(xs)
  {
    SortMembers(xs);
    assert xs[i] in multiset(xs);
  }

  lemma HeadIsLeast<T>(xs: seq<Named<T>>, ys: seq<Named<T>>)
    requires Sorted(xs) && Sorted(ys) && xs != [] && ys != [] && MapOf(xs) == MapOf(ys)
    ensures xs[0].name == ys[0].name
  {
    hide NameBelow;
    var a, b := xs[0].name, ys[0].name;
    assert a in MapOf(ys) && b in MapOf(xs);
    if a != b {
      NamesTransitive(a, b, a);
      NameNotBelowItself(a);
      assert false;
    }
  }

  lemma TailContents<T>(xs: seq<Named<T>>)
    requires Sorted(xs) && xs != []
    ensures MapOf(xs[1..]) == MapOf(xs) - {xs[0].name} && MapOf(xs)[xs[0].name] == xs[0].value
  {
    hide NameBelow;
    NameNotBelowItself(xs[0].name);
  }

  lemma NoContents<T>(xs: seq<Named<T>>)
    ensures MapOf(xs) == map[] <==> xs == []
  {
    if xs != [] {
      assert xs[0].name in MapOf(xs);
    }
  }

  /** Contents determine the sorted list: two sorted lists with the same contents are equal. */
  lemma {:induction false} SortedUnique<T>(xs: seq<Named<T>>, ys: seq<Named<T>>)
    requires Sorted(xs) && Sorted(ys) && MapOf(xs) == MapOf(ys)
    ensures xs == ys
  {
    if xs == [] {
      NoContents(ys);
    } else if ys == [] {
      NoContents(xs);
    } else {
      hide NameBelow;
      HeadIsLeast(xs, ys);
      TailContents(xs);
      TailContents(ys);
      SortedUnique(xs[1..], ys[1..]);
      assert xs == [xs[0]] + xs[1..] && ys == [ys[0]] + ys[1..];
    }
  }
}
