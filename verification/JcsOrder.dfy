/**
 The text of a dictionary, said by code units and plain characters: the keys in
 ascending order of their UTF-16 code units, every escape spelled out, and the
 whole text of one job.
 */
module JcsOrder {
  import opened Decimals
  import opened SortedByName
  import opened RestrictedJcs
  import opened JobPayload

  // ---- Code units ----

  /** The UTF-16 code units of a text: one for each character up to U+FFFF, two for each above. */
  function CodeUnits(t: Text): seq<nat> {
    if t == [] then [] else CharUnits(t[0]) + CodeUnits(t[1..])
  }

  function CharUnits(c: CodePoint): seq<nat> {
    if c < 0x1_0000 then [c] else [0xD800 + (c - 0x1_0000) / 0x400, 0xDC00 + (c - 0x1_0000) % 0x400]
  }

  ghost predicate Ascending<T>(order: seq<Named<T>>) {
    forall i, j | 0 <= i < j < |order| :: Precedes(CodeUnits(order[i].name), CodeUnits(order[j].name))
  }

  function Bytes(units: seq<nat>): seq<nat> {
    if units == [] then [] else [units[0] / 0x100, units[0] % 0x100] + Bytes(units[1..])
  }

  lemma {:induction false} BytesAppend(a: seq<nat>, b: seq<nat>)
    ensures Bytes(a + b) == Bytes(a) + Bytes(b)
  {
    if a == [] {
      assert a + b == b;
    } else {
      assert (a + b)[1..] == a[1..] + b;
      BytesAppend(a[1..], b);
    }
  }

  lemma CharBytes(c: CodePoint)
    ensures Utf16Char(c) == Bytes(CharUnits(c))
  {
    assert Bytes([]) == [];
    if c < 0x1_0000 {
      assert [c][1..] == [];
    } else {
      var units := CharUnits(c);
      assert units[1..] == [units[1]] && units[1..][1..] == [];
    }
  }

  lemma {:induction false} Utf16IsUnits(t: Text)
    ensures Utf16(t) == Bytes(CodeUnits(t))
  {
    if t != [] {
      CharBytes(t[0]);
      BytesAppend(CharUnits(t[0]), CodeUnits(t[1..]));
      Utf16IsUnits(t[1..]);
      hide CharUnits, Utf16Char, Bytes;
    }
  }

  /** Comparing big-endian bytes compares units. */
  lemma {:induction false} BytesCompare(a: seq<nat>, b: seq<nat>)
    ensures Below(Bytes(a), Bytes(b)) <==> Below(a, b)
  {
    if a != [] && b != [] {
      BytesCompare(a[1..], b[1..]);
      var x, y := Bytes(a), Bytes(b);
      assert x[1..] == [a[0] % 0x100] + Bytes(a[1..]) && y[1..] == [b[0] % 0x100] + Bytes(b[1..]);
      assert x[1..][1..] == Bytes(a[1..]) && y[1..][1..] == Bytes(b[1..]);
      assert Below(x, y) <==> x[0] < y[0] || (x[0] == y[0] && Below(x[1..], y[1..]));
      assert Below(x[1..], y[1..]) <==> x[1] < y[1] || (x[1] == y[1] && Below(x[1..][1..], y[1..][1..]));
    }
  }

  lemma NameBelowMeans(a: Text, b: Text)
    ensures NameBelow(a, b) <==> Precedes(CodeUnits(a), CodeUnits(b))
  {
    Utf16IsUnits(a);
    Utf16IsUnits(b);
    BytesCompare(CodeUnits(a), CodeUnits(b));
    BelowPrecedes(CodeUnits(a), CodeUnits(b));
    hide Below, Precedes, Utf16, CodeUnits, Bytes;
  }

  lemma {:induction false} NameIn<T>(xs: seq<Named<T>>, i: nat)
    requires i < |xs|
    ensures xs[i].name in MapOf(xs)
  {
    if i > 0 {
      NameIn(xs[1..], i - 1);
    }
  }

  /** Sorted lists are the ascending ones. */
  lemma {:induction false} SortedAscends<T>(xs: seq<Named<T>>)
    ensures Sorted(xs) <==> Ascending(xs)
  {
    hide NameBelow, Precedes, CodeUnits;
    if xs != [] {
      var rest := xs[1..];
      SortedAscends(rest);
      forall j | 0 < j < |xs| ensures NameBelow(xs[0].name, xs[j].name) <==> Precedes(CodeUnits(xs[0].name), CodeUnits(xs[j].name)) {
        NameBelowMeans(xs[0].name, xs[j].name);
      }
      if Sorted(xs) {
        forall i, j | 0 <= i < j < |xs| ensures Precedes(CodeUnits(xs[i].name), CodeUnits(xs[j].name)) {
          if i == 0 {
            NameIn(rest, j - 1);
          } else {
            assert rest[i - 1] == xs[i] && rest[j - 1] == xs[j];
          }
        }
      }
      if Ascending(xs) {
        forall i, j | 0 <= i < j < |rest| ensures Precedes(CodeUnits(rest[i].name), CodeUnits(rest[j].name)) {
          assert rest[i] == xs[i + 1] && rest[j] == xs[j + 1];
        }
        forall name | name in MapOf(rest) ensures NameBelow(xs[0].name, name) {
          var j := NameIndex(rest, name);
          assert xs[j + 1] == rest[j];
        }
      }
    }
  }

  // ---- The text of a dictionary ----

  /** Members in the given order, each a quoted key, a colon and a value, with commas between. */
  function MembersText(order: seq<Named<Value>>): Text
    requires forall i | 0 <= i < |order| :: Admissible(order[i].value)
  {
    if order == [] then []
    else
      Quoted(order[0].name) + Codes(":") + Serialized(order[0].value)
      + (if |order| == 1 then [] else Codes(",") + MembersText(order[1..]))
  }

  lemma {:induction false} JoinedIsText(order: seq<Named<Value>>)
    requires forall i | 0 <= i < |order| :: Admissible(order[i].value)
    ensures Joined(Members(order)) == MembersText(order)
  {
    assert Codes(":") == [COLON] && Codes(",") == [COMMA];
    hide Serialized, Quoted, Codes;
    if order != [] {
      JoinedIsText(order[1..]);
      assert Members(order)[1..] == Members(order[1..]);
    }
  }

  /**
   A dictionary is printed as its own members, each once, in ascending order of
   the UTF-16 code units of their keys, between braces.
   */
  lemma KeysAscend(entries: seq<Named<Value>>) returns (order: seq<Named<Value>>)
    requires Admissible(Dict(entries)) && IsPythonValue(Dict(entries))
    ensures multiset(order) == multiset(entries) && Ascending(order)
    ensures forall i | 0 <= i < |order| :: Admissible(order[i].value)
    ensures Serialized(Dict(entries)) == Codes("{") + MembersText(order) + Codes("}")
  {
    order := Sort(entries);
    assert Codes("{") == [OPEN] && Codes("}") == [CLOSE];
    DictNames(entries);
    hide Codes, Joined, MembersText, Sort, Ascending, IsScalarText;
    SortMembers(entries);
    SortFacts(entries);
    SortedAscends(order);
    SortAdmissible(entries);
    MembersSort(entries);
    JoinedIsText(order);
  }

  lemma DictNames(entries: seq<Named<Value>>)
    requires Admissible(Dict(entries)) && IsPythonValue(Dict(entries))
    ensures DistinctNames(entries) && ScalarNames(entries)
  {
    forall name | name in MapOf(entries) ensures IsScalarText(name) {
      var i := NameIndex(entries, name);
    }
  }

  lemma {:induction false} SameMap<T>(xs: seq<Named<T>>, name: Text, value: T)
    requires DistinctNames(xs)
    ensures name in MapOf(xs) && MapOf(xs)[name] == value <==> Named(name, value) in xs
  {
    if xs != [] {
      SameMap(xs[1..], name, value);
      assert xs == [xs[0]] + xs[1..];
      if Named(name, value) in xs[1..] {
        var i :| 0 <= i < |xs[1..]| && xs[1..][i] == Named(name, value);
        NameIn(xs[1..], i);
      }
    }
  }

  /** Only one order ascends: whoever writes the members in ascending order writes this text. */
  lemma TextOfAscending(entries: seq<Named<Value>>, order: seq<Named<Value>>)
    requires Admissible(Dict(entries)) && IsPythonValue(Dict(entries))
    requires Ascending(order) && forall x :: x in order <==> x in entries
    ensures forall i | 0 <= i < |order| :: Admissible(order[i].value)
    ensures Serialized(Dict(entries)) == Codes("{") + MembersText(order) + Codes("}")
  {
    var sorted := KeysAscend(entries);
    SortedAscends(sorted);
    SortedAscends(order);
    forall x ensures x in sorted <==> x in order {
      assert x in multiset(sorted) <==> x in multiset(entries);
    }
    hide Ascending, Sorted, MembersText, Serialized, Codes, Admissible, IsPythonValue;
    AscendingIsOne(sorted, order);
  }

  lemma AscendingIsOne<T>(xs: seq<Named<T>>, ys: seq<Named<T>>)
    requires Sorted(xs) && Sorted(ys) && forall x :: x in xs <==> x in ys
    ensures xs == ys
  {
    SortedDistinct(xs);
    SortedDistinct(ys);
    forall name ensures name in MapOf(xs) <==> name in MapOf(ys) {
      NameBoth(xs, ys, name);
      NameBoth(ys, xs, name);
    }
    forall name | name in MapOf(xs) ensures MapOf(xs)[name] == MapOf(ys)[name] {
      SameMap(xs, name, MapOf(xs)[name]);
      SameMap(ys, name, MapOf(xs)[name]);
    }
    assert MapOf(xs) == MapOf(ys);
    SortedUnique(xs, ys);
  }

  lemma NameBoth<T>(xs: seq<Named<T>>, ys: seq<Named<T>>, name: Text)
    requires forall x | x in xs :: x in ys
    ensures name in MapOf(xs) ==> name in MapOf(ys)
  {
    if name in MapOf(xs) {
      var i := NameIndex(xs, name);
      assert xs[i] in ys;
      var j :| 0 <= j < |ys| && ys[j] == xs[i];
      NameIn(ys, j);
    }
  }

  lemma {:induction false} SortedDistinct<T>(xs: seq<Named<T>>)
    requires Sorted(xs)
    ensures DistinctNames(xs)
  {
    if xs != [] {
      SortedDistinct(xs[1..]);
      NameNotBelowItself(xs[0].name);
    }
    hide NameBelow;
  }

  // ---- Plain texts and concrete vectors ----

  lemma {:induction false} PlainUnits(t: Text)
    requires forall i | 0 <= i < |t| :: t[i] < 0x1_0000
    ensures CodeUnits(t) == t
  {
    if t != [] {
      PlainUnits(t[1..]);
      assert t == [t[0]] + t[1..];
    }
  }

  /** Plain names compare at their first different character. */
  lemma PlainPrecedes(a: string, b: string, k: nat)
    requires k < |a| && k < |b| && a[..k] == b[..k] && a[k] < b[k]
    requires (forall i | 0 <= i < |a| :: a[i] < '\U{80}') && forall i | 0 <= i < |b| :: b[i] < '\U{80}'
    ensures Precedes(CodeUnits(Codes(a)), CodeUnits(Codes(b)))
  {
    PlainUnits(Codes(a));
    PlainUnits(Codes(b));
    forall i | 0 <= i < k ensures a[i] == b[i] {
      assert a[..k][i] == b[..k][i];
    }
    assert Codes(a)[..k] == Codes(b)[..k] && Codes(a)[k] < Codes(b)[k];
  }

  /** Every character of a string is printed as itself, except for these. */
  lemma EscapesExactly(c: CodePoint)
    ensures EscapedChar(c)
         == if c == '"' as int then Codes("\\\"")
            else if c == '\\' as int then Codes("\\\\")
            else if c == 8 then Codes("\\b")
            else if c == 9 then Codes("\\t")
            else if c == 10 then Codes("\\n")
            else if c == 12 then Codes("\\f")
            else if c == 13 then Codes("\\r")
            else if c < 16 then Codes("\\u000") + [Codes("0123456789abcdef")[c]]
            else if c < 32 then Codes("\\u001") + [Codes("0123456789abcdef")[c - 16]]
            else [c]
  {
  }

  /** A string is printed character by character between quotes. */
  lemma QuotedSnoc(t: Text, c: CodePoint)
    ensures Quoted([]) == Codes("\"\"")
    ensures |Quoted(t)| >= 2 && Quoted(t + [c]) == Quoted(t)[..|Quoted(t)| - 1] + EscapedChar(c) + Codes("\"")
  {
    EscapedSnoc(t, c);
    assert Codes("\"") == [QUOTE] && Codes("\"\"") == [QUOTE, QUOTE];
    assert Quoted(t)[..|Quoted(t)| - 1] == [QUOTE] + Escaped(t);
    hide Escaped, EscapedChar, Codes;
  }

  lemma {:induction false} EscapedSnoc(t: Text, c: CodePoint)
    ensures Escaped(t + [c]) == Escaped(t) + EscapedChar(c)
  {
    hide EscapedChar;
    if t == [] {
      assert t + [c] == [c] && [c][1..] == [];
    } else {
      assert (t + [c])[1..] == t[1..] + [c];
      EscapedSnoc(t[1..], c);
    }
  }

  lemma PlainQuoted(c: CodePoint)
    requires 93 <= c
    ensures Quoted([c]) == [34, c, 34] && CodeUnits([c]) == CharUnits(c)
  {
    assert [c][1..] == [];
    assert Escaped([]) == [] && CodeUnits([]) == [];
    assert Escaped([c]) == [c] + [] == [c];
  }

  lemma OneAndTwo()
    ensures IntText(1) == [49] && IntText(2) == [50] && IntText(-12) == Codes("-12")
  {
    assert Decimal(1) == [DigitChar(1)] && Decimal(2) == [DigitChar(2)] && Decimal(12) == Decimal(1) + [DigitChar(2)];
    assert Codes(Decimal(12)) == [49, 50];
    assert Codes("-12") == [45, 49, 50];
  }

  lemma NotItself(a: seq<nat>)
    ensures !Precedes(a, a)
  {
  }

  lemma TwoEntries(x: Named<Value>, y: Named<Value>)
    requires IsScalarText(x.name) && IsScalarText(y.name) && Admissible(x.value) && Admissible(y.value)
    requires IsPythonValue(x.value) && IsPythonValue(y.value) && Precedes(CodeUnits(y.name), CodeUnits(x.name))
    ensures Admissible(Dict([x, y])) && IsPythonValue(Dict([x, y])) && Ascending([y, x])
  {
    NotItself(CodeUnits(x.name));
    DistinctByIndex([x, y]);
    hide Precedes, CodeUnits;
  }

  lemma TwoTexts(x: Named<Value>, y: Named<Value>)
    requires Admissible(x.value) && Admissible(y.value)
    ensures MembersText([y, x])
         == Quoted(y.name) + Codes(":") + Serialized(y.value) + (Codes(",") + (Quoted(x.name) + Codes(":") + Serialized(x.value)))
  {
    assert [y, x][1..] == [x];
    hide Quoted, Codes, Serialized;
    assert MembersText([x]) == Quoted(x.name) + Codes(":") + Serialized(x.value) + [];
  }

  /** Two one-character keys, the one that comes first inserted last. */
  lemma TwoPlain(x: CodePoint, y: CodePoint)
    requires 93 <= x && 93 <= y && !IsSurrogate(x) && !IsSurrogate(y) && Precedes(CharUnits(y), CharUnits(x))
    ensures var entries := [Named([x], Int(1)), Named([y], Int(2))];
      && Admissible(Dict(entries))
      && Serialized(Dict(entries)) == [123, 34, y, 34, 58, 50, 44, 34, x, 34, 58, 49, 125]
  {
    var first, second := Named([y], Int(2)), Named([x], Int(1));
    PlainQuoted(x);
    PlainQuoted(y);
    OneAndTwo();
    assert Codes("{") == [123] && Codes("}") == [125] && Codes(":") == [58] && Codes(",") == [44];
    assert Serialized(Int(1)) == [49] && Serialized(Int(2)) == [50];
    assert forall m :: m in [first, second] <==> m in [second, first];
    assert IsScalarText([x]) && IsScalarText([y]);
    assert Admissible(Int(1)) && Admissible(Int(2)) && IsPythonValue(Int(1)) && IsPythonValue(Int(2));
    hide *;
    TwoEntries(second, first);
    TwoTexts(second, first);
    TextOfAscending([second, first], [first, second]);
    TwoPieces(x, y);
  }

  lemma TwoPieces(x: CodePoint, y: CodePoint)
    ensures [123] + ([34, y, 34] + [58] + [50] + ([44] + ([34, x, 34] + [58] + [49]))) + [125]
         == [123, 34, y, 34, 58, 50, 44, 34, x, 34, 58, 49, 125]
  {
  }

  /** Whatever the order of insertion, "a" is printed before "b". */
  lemma TwoKeys()
    ensures var entries := [Named(Codes("b"), Int(1)), Named(Codes("a"), Int(2))];
      Admissible(Dict(entries)) && Serialized(Dict(entries)) == Codes("{\"a\":2,\"b\":1}")
  {
    assert Codes("b") == [98] && Codes("a") == [97];
    assert CharUnits(97)[..0] == CharUnits(98)[..0];
    TwoPlain(98, 97);
    assert Codes("{\"a\":2,\"b\":1}") == [123, 34, 97, 34, 58, 50, 44, 34, 98, 34, 58, 49, 125];
    hide Serialized;
  }

  /** A supplementary character comes before U+FB33, although its code point is larger. */
  lemma SupplementaryFirst()
    ensures var entries := [Named([0xFB33], Int(1)), Named([0x1_0000], Int(2))];
      && Admissible(Dict(entries))
      && Serialized(Dict(entries)) == [123, 34, 0x1_0000, 34, 58, 50, 44, 34, 0xFB33, 34, 58, 49, 125]
  {
    assert CharUnits(0x1_0000) == [0xD800, 0xDC00] && CharUnits(0xFB33) == [0xFB33];
    assert CharUnits(0x1_0000)[..0] == CharUnits(0xFB33)[..0];
    TwoPlain(0xFB33, 0x1_0000);
  }
}
