/**
 The restricted canonical JSON serializer behind the job payload digest: strings,
 integers and nested objects, in the form of sections 3.2.2.2 and 3.2.3 of RFC 8785.
 */
module RestrictedJcs {
  import opened Basics
  import opened Decimals
  import opened SortedByName

  /**
   A value handed to the serializer. A dictionary keeps its insertion order;
   `Unsupported` stands for every other Python type.
   */
  datatype Value =
    | Str(text: Text)
    | Int(n: int)
    | Dict(entries: seq<Named<Value>>)
    | Unsupported

  /** Dictionary keys are distinct, at every level. */
  predicate IsPythonValue(v: Value) {
    v.Dict? ==> DistinctNames(v.entries) && forall i | 0 <= i < |v.entries| :: IsPythonValue(v.entries[i].value)
  }

  /** Only scalar text, integers and dictionaries of them are serialized; anything else is rejected. */
  predicate Admissible(v: Value) {
    match v
    case Str(t) => IsScalarText(t)
    case Int(_) => true
    case Dict(entries) =>
      forall i | 0 <= i < |entries| :: IsScalarText(entries[i].name) && Admissible(entries[i].value)
    case Unsupported => false
  }

  const QUOTE: CodePoint := 34
  const BACKSLASH: CodePoint := 92
  const COMMA: CodePoint := 44
  const COLON: CodePoint := 58
  const OPEN: CodePoint := 123
  const CLOSE: CodePoint := 125
  const MINUS: CodePoint := 45

  // ---- Serialized form ----

  function HexDigit(d: nat): CodePoint
    requires d < 16
  {
    if d < 10 then 48 + d else 87 + d
  }

  function EscapedChar(c: CodePoint): (r: Text)
    ensures r != []
  {
    if c == 8 then [BACKSLASH, 98]
    else if c == 9 then [BACKSLASH, 116]
    else if c == 10 then [BACKSLASH, 110]
    else if c == 12 then [BACKSLASH, 102]
    else if c == 13 then [BACKSLASH, 114]
    else if c == QUOTE then [BACKSLASH, QUOTE]
    else if c == BACKSLASH then [BACKSLASH, BACKSLASH]
    else if c <= 0x1F then [BACKSLASH, 117, 48, 48, HexDigit(c / 16), HexDigit(c % 16)]
    else [c]
  }

  function Escaped(t: Text): Text {
    if t == [] then [] else EscapedChar(t[0]) + Escaped(t[1..])
  }

  function Quoted(t: Text): Text {
    [QUOTE] + Escaped(t) + [QUOTE]
  }

  function Codes(s: string): (r: Text)
    ensures |r| == |s|
  {
    seq(|s|, i requires 0 <= i < |s| => s[i] as int)
  }

  /** `str(n)` */
  function IntText(n: int): Text {
    if n < 0 then [MINUS] + Codes(Decimal(-n)) else Codes(Decimal(n))
  }

  function MemberText(name: Text, value: Text): Text {
    Quoted(name) + [COLON] + value
  }

  /** `",".join(members)` for members given as names with serialized values. */
  function Joined(members: seq<Named<Text>>): Text {
    if members == [] then []
    else if |members| == 1 then MemberText(members[0].name, members[0].value)
    else MemberText(members[0].name, members[0].value) + [COMMA] + Joined(members[1..])
  }

  function Serialized(v: Value): Text
    requires Admissible(v)
    decreases v, 1
  {
    match v
    case Str(t) => Quoted(t)
    case Int(n) => IntText(n)
    case Dict(entries) => [OPEN] + Joined(Sort(Members(entries))) + [CLOSE]
  }

  function Members(entries: seq<Named<Value>>): (r: seq<Named<Text>>)
    requires forall i | 0 <= i < |entries| :: Admissible(entries[i].value)
    decreases entries, 0
  {
    if entries == [] then []
    else [Named(entries[0].name, Serialized(entries[0].value))] + Members(entries[1..])
  }

  // ---- The serializer as it runs ----

  /** Appends one escape at a time between two quotes. */
  method QuoteString(t: Text) returns (r: Option<Text>)
    ensures r == if IsScalarText(t) then Some(Quoted(t)) else None
  {
    if !IsScalarText(t) { return None; }
    var encoded := [QUOTE];
    for i := 0 to |t|
      invariant encoded + Escaped(t[i..]) == [QUOTE] + Escaped(t)
    {
      assert t[i..][0] == t[i] && t[i..][1..] == t[i + 1..];
      assert encoded + Escaped(t[i..]) == (encoded + EscapedChar(t[i])) + Escaped(t[i + 1..]);
      encoded := encoded + EscapedChar(t[i]);
    }
    assert t[|t|..] == [] && encoded + [] == encoded;
    return Some(encoded + [QUOTE]);
  }

  lemma {:induction false} MembersInsert(x: Named<Value>, xs: seq<Named<Value>>)
    requires Admissible(x.value) && forall i | 0 <= i < |xs| :: Admissible(xs[i].value)
    requires forall i | 0 <= i < |Insert(x, xs)| :: Admissible(Insert(x, xs)[i].value)
    ensures Members(Insert(x, xs)) == Insert(Named(x.name, Serialized(x.value)), Members(xs))
  {
    hide Serialized, NameBelow;
    if xs != [] && NameBelow(xs[0].name, x.name) {
      var tail := Insert(x, xs[1..]);
      assert Insert(x, xs) == [xs[0]] + tail;
      forall i | 0 <= i < |tail| ensures Admissible(tail[i].value) {
        assert tail[i] == Insert(x, xs)[i + 1];
      }
      MembersInsert(x, xs[1..]);
      assert ([xs[0]] + tail)[1..] == tail;
    } else {
      assert ([x] + xs)[1..] == xs;
    }
  }

  lemma SortAdmissible(xs: seq<Named<Value>>)
    requires forall i | 0 <= i < |xs| :: Admissible(xs[i].value)
    ensures forall i | 0 <= i < |Sort(xs)| :: Sort(xs)[i] in xs && Admissible(Sort(xs)[i].value)
  {
    forall i | 0 <= i < |Sort(xs)| ensures Sort(xs)[i] in xs && Admissible(Sort(xs)[i].value) {
      SortMembersAt(xs, i);
      var k :| 0 <= k < |xs| && xs[k] == Sort(xs)[i];
    }
  }

  /** Sorting looks only at names, so serializing the members first or sorting first gives one text. */
  lemma {:induction false} MembersSort(xs: seq<Named<Value>>)
    requires forall i | 0 <= i < |xs| :: Admissible(xs[i].value)
    requires forall i | 0 <= i < |Sort(xs)| :: Admissible(Sort(xs)[i].value)
    ensures Members(Sort(xs)) == Sort(Members(xs))
  {
    hide Serialized;
    if xs != [] {
      SortAdmissible(xs[1..]);
      MembersSort(xs[1..]);
      assert Sort(xs) == Insert(xs[0], Sort(xs[1..]));
      MembersInsert(xs[0], Sort(xs[1..]));
      assert Members(xs)[1..] == Members(xs[1..]);
    }
  }

  lemma {:induction false} JoinedSnoc(members: seq<Named<Text>>, m: Named<Text>)
    ensures Joined(members + [m])
         == if members == [] then MemberText(m.name, m.value) else Joined(members) + [COMMA] + MemberText(m.name, m.value)
  {
    hide MemberText;
    if members == [] {
      assert members + [m] == [m];
    } else {
      assert (members + [m])[1..] == members[1..] + [m];
      JoinedSnoc(members[1..], m);
    }
  }

  lemma {:induction false} MembersSnoc(xs: seq<Named<Value>>, x: Named<Value>)
    requires Admissible(x.value) && forall i | 0 <= i < |xs| :: Admissible(xs[i].value)
    ensures Members(xs + [x]) == Members(xs) + [Named(x.name, Serialized(x.value))]
  {
    if xs == [] {
      assert [x][1..] == [] && xs + [x] == [x];
    } else {
      assert (xs + [x])[1..] == xs[1..] + [x];
      MembersSnoc(xs[1..], x);
    }
  }

  /** Serializes a value; a dictionary's keys are sorted and its entries visited in that order. */
  method Serialize(v: Value) returns (r: Option<Text>)
    ensures r == if Admissible(v) then Some(Serialized(v)) else None
    decreases v, 1
  {
    match v
    case Str(t) => r := QuoteString(t);
    case Int(n) => r := Some(IntText(n));
    case Unsupported => r := None;
    case Dict(entries) =>
      if exists i | 0 <= i < |entries| :: !IsScalarText(entries[i].name) { return None; }
      var joined := SerializeSorted(entries);
      if joined.None? { return None; }
      SortAdmissible(entries);
      MembersSort(entries);
      return Some([OPEN] + joined.value + [CLOSE]);
  }

  method SerializeSorted(entries: seq<Named<Value>>) returns (r: Option<Text>)
    requires forall i | 0 <= i < |entries| :: IsScalarText(entries[i].name)
    ensures r.Some? <==> forall i | 0 <= i < |entries| :: Admissible(entries[i].value)
    ensures r.Some? ==> (forall i | 0 <= i < |Sort(entries)| :: Admissible(Sort(entries)[i].value))
                        && r.value == Joined(Members(Sort(entries)))
    decreases entries, 0
  {
    hide Serialized, Sort, Joined, Members, Admissible, Quoted, MemberText;
    var sorted := Sort(entries);
    var joined := EmptyJoin();
    for i := 0 to |sorted|
      invariant forall j | 0 <= j < i :: Admissible(sorted[j].value)
      invariant joined == Joined(Members(sorted[..i]))
    {
      SortMembersAt(entries, i);
      var k :| 0 <= k < |entries| && entries[k] == sorted[i];
      var name := QuoteString(sorted[i].name);
      var value := Serialize(sorted[i].value);
      if value.None? { return None; }
      joined := JoinNext(sorted[..i], joined, sorted[i], name.value, value.value);
      assert sorted[..i] + [sorted[i]] == sorted[..i + 1];
    }
    assert sorted[..|sorted|] == sorted;
    forall i | 0 <= i < |entries| ensures Admissible(entries[i].value) {
      SortKeeps(entries, i);
      var j :| 0 <= j < |sorted| && sorted[j] == entries[i];
    }
    return Some(joined);
  }

  function EmptyJoin(): (r: Text)
    ensures r == Joined(Members([]))
  {
    []
  }

  method JoinNext(done: seq<Named<Value>>, joined: Text, x: Named<Value>, name: Text, value: Text) returns (r: Text)
    requires Admissible(x.value) && forall i | 0 <= i < |done| :: Admissible(done[i].value)
    requires joined == Joined(Members(done)) && name == Quoted(x.name) && value == Serialized(x.value)
    ensures r == Joined(Members(done + [x]))
  {
    hide Serialized, Quoted;
    MembersSnoc(done, x);
    JoinedSnoc(Members(done), Named(x.name, value));
    assert Members(done) == [] <==> done == [];
    r := (if done == [] then [] else joined + [COMMA]) + (name + [COLON] + value);
  }
}
