/**
 A reader for the restricted canonical form, and the two laws of the serializer:
 its text reads back as the value, and its text depends on the contents only.
 */
module JcsRoundTrip {
  import opened Basics
  import opened Decimals
  import opened SortedByName
  import opened RestrictedJcs

  /** What a value means once insertion order is forgotten. */
  datatype Tree = TStr(text: Text) | TInt(n: int) | TObj(members: map<Text, Tree>) | TNone

  function Meaning(v: Value): Tree
    decreases v, 1
  {
    match v
    case Str(t) => TStr(t)
    case Int(n) => TInt(n)
    case Dict(entries) => TObj(MapOf(Meanings(entries)))
    case Unsupported => TNone
  }

  function Meanings(entries: seq<Named<Value>>): seq<Named<Tree>>
    decreases entries, 0
  {
    if entries == [] then [] else [Named(entries[0].name, Meaning(entries[0].value))] + Meanings(entries[1..])
  }

  // ---- The reader ----

  predicate IsDigitCode(c: CodePoint) {
    48 <= c <= 57
  }

  function DigitRun(s: Text): (n: nat)
    ensures n <= |s| && forall i | 0 <= i < n :: IsDigitCode(s[i])
    ensures n < |s| ==> !IsDigitCode(s[n])
  {
    if s == [] || !IsDigitCode(s[0]) then 0 else 1 + DigitRun(s[1..])
  }

  function Chars(s: Text): (r: string)
    requires forall i | 0 <= i < |s| :: IsDigitCode(s[i])
    ensures |r| == |s| && AllDigits(r)
  {
    seq(|s|, i requires 0 <= i < |s| && IsDigitCode(s[i]) => s[i] as char)
  }

  function ReadNat(s: Text): (r: Option<(int, Text)>)
    ensures r.Some? ==> |r.value.1| < |s|
  {
    var n := DigitRun(s);
    if n == 0 then None else Some((DecimalValue(Chars(s[..n])), s[n..]))
  }

  function ReadInt(s: Text): (r: Option<(int, Text)>)
    ensures r.Some? ==> |r.value.1| < |s|
  {
    if s != [] && s[0] == MINUS then
      match ReadNat(s[1..]) case None => None case Some((n, rest)) => Some((-n, rest))
    else
      match ReadNat(s) case None => None case Some((n, rest)) => Some((n, rest))
  }

  function HexValue(c: CodePoint): Option<nat> {
    if 48 <= c <= 57 then Some(c - 48) else if 97 <= c <= 102 then Some(c - 87) else None
  }

  /** The character written by one escape, and how much text it takes. */
  function ReadEscape(s: Text): (r: Option<(CodePoint, nat)>)
    ensures r.Some? ==> 2 <= r.value.1 <= |s|
  {
    if |s| < 2 then None
    else if s[1] == 98 then Some((8, 2))
    else if s[1] == 116 then Some((9, 2))
    else if s[1] == 110 then Some((10, 2))
    else if s[1] == 102 then Some((12, 2))
    else if s[1] == 114 then Some((13, 2))
    else if s[1] == QUOTE || s[1] == BACKSLASH then Some((s[1], 2))
    else if s[1] == 117 && |s| >= 6 && HexValue(s[2]).Some? && HexValue(s[3]).Some?
            && HexValue(s[4]).Some? && HexValue(s[5]).Some? then
      Some((((HexValue(s[2]).value * 16 + HexValue(s[3]).value) * 16 + HexValue(s[4]).value) * 16
            + HexValue(s[5]).value, 6))
    else None
  }

  /** String characters up to and including the closing quote. */
  function ReadChars(s: Text): (r: Option<(Text, Text)>)
    ensures r.Some? ==> |r.value.1| < |s|
    decreases |s|
  {
    if s == [] then None
    else if s[0] == QUOTE then Some(([], s[1..]))
    else if s[0] == BACKSLASH then
      match ReadEscape(s)
      case None => None
      case Some((c, used)) =>
        match ReadChars(s[used..]) case None => None case Some((t, rest)) => Some(([c] + t, rest))
    else if s[0] <= 0x1F then None
    else
      match ReadChars(s[1..]) case None => None case Some((t, rest)) => Some(([s[0]] + t, rest))
  }

  function ReadString(s: Text): (r: Option<(Text, Text)>)
    ensures r.Some? ==> |r.value.1| < |s|
  {
    if s == [] || s[0] != QUOTE then None else ReadChars(s[1..])
  }

  function ReadValue(s: Text): (r: Option<(Tree, Text)>)
    ensures r.Some? ==> |r.value.1| < |s|
    decreases |s|, 1
  {
    if s == [] then None
    else if s[0] == QUOTE then
      match ReadString(s) case None => None case Some((t, rest)) => Some((TStr(t), rest))
    else if s[0] == OPEN then
      if |s| > 1 && s[1] == CLOSE then Some((TObj(map[]), s[2..]))
      else match ReadMembers(s[1..]) case None => None case Some((m, rest)) => Some((TObj(MapOf(m)), rest))
    else
      match ReadInt(s) case None => None case Some((n, rest)) => Some((TInt(n), rest))
  }

  /** One or more `name:value` members up to and including the closing brace. */
  function ReadMembers(s: Text): (r: Option<(seq<Named<Tree>>, Text)>)
    ensures r.Some? ==> |r.value.1| < |s|
    decreases |s|, 0
  {
    match ReadString(s)
    case None => None
    case Some((name, afterName)) =>
      if afterName == [] || afterName[0] != COLON then None
      else
        match ReadValue(afterName[1..])
        case None => None
        case Some((value, afterValue)) =>
          if afterValue == [] then None
          else if afterValue[0] == CLOSE then Some(([Named(name, value)], afterValue[1..]))
          else if afterValue[0] != COMMA then None
          else
            match ReadMembers(afterValue[1..])
            case None => None
            case Some((members, rest)) => Some(([Named(name, value)] + members, rest))
  }

  // ---- Reading back ----

  lemma ReadEscapedChar(c: CodePoint, rest: Text)
    requires EscapedChar(c) != [c]
    ensures ReadEscape(EscapedChar(c) + rest) == Some((c, |EscapedChar(c)|))
    ensures (EscapedChar(c) + rest)[0] == BACKSLASH
    ensures (EscapedChar(c) + rest)[|EscapedChar(c)|..] == rest
  {
    var s := EscapedChar(c) + rest;
    assert s[1] == EscapedChar(c)[1];
    if |EscapedChar(c)| == 6 {
      assert s[2] == 48 && s[3] == 48 && s[4] == HexDigit(c / 16) && s[5] == HexDigit(c % 16);
    }
  }

  lemma {:induction false} ReadEscaped(t: Text, rest: Text)
    ensures ReadChars(Escaped(t) + [QUOTE] + rest) == Some((t, rest))
  {
    if t == [] {
      assert Escaped(t) + [QUOTE] + rest == [QUOTE] + rest;
    } else {
      var tail := Escaped(t[1..]) + [QUOTE] + rest;
      assert Escaped(t) + [QUOTE] + rest == EscapedChar(t[0]) + tail;
      ReadEscaped(t[1..], rest);
      if EscapedChar(t[0]) == [t[0]] {
        assert ([t[0]] + tail)[1..] == tail;
      } else {
        ReadEscapedChar(t[0], tail);
      }
      assert t == [t[0]] + t[1..];
    }
  }

  lemma ReadQuoted(t: Text, rest: Text)
    ensures Quoted(t)[0] == QUOTE && ReadString(Quoted(t) + rest) == Some((t, rest))
  {
    var s := Quoted(t) + rest;
    assert s[0] == QUOTE && s[1..] == Escaped(t) + [QUOTE] + rest;
    ReadEscaped(t, rest);
  }

  lemma {:induction false} DigitRunOf(digits: Text, rest: Text)
    requires forall i | 0 <= i < |digits| :: IsDigitCode(digits[i])
    requires rest == [] || !IsDigitCode(rest[0])
    ensures DigitRun(digits + rest) == |digits|
  {
    if digits == [] {
      assert digits + rest == rest;
    } else {
      assert (digits + rest)[1..] == digits[1..] + rest;
      DigitRunOf(digits[1..], rest);
    }
  }

  lemma ReadDecimal(n: nat, rest: Text)
    requires rest == [] || !IsDigitCode(rest[0])
    ensures ReadNat(Codes(Decimal(n)) + rest) == Some((n, rest))
    ensures IsDigitCode(Codes(Decimal(n))[0])
  {
    var digits := Codes(Decimal(n));
    DigitRunOf(digits, rest);
    assert (digits + rest)[..|digits|] == digits && (digits + rest)[|digits|..] == rest;
    assert Chars(digits) == Decimal(n);
    ValueOfDecimal(n);
  }

  lemma ReadIntText(n: int, rest: Text)
    requires rest == [] || !IsDigitCode(rest[0])
    ensures ReadValue(IntText(n) + rest) == Some((TInt(n), rest))
    ensures IntText(n)[0] != CLOSE
  {
    hide ReadNat, Codes, Decimal, ReadMembers, ReadString;
    var m: nat := if n < 0 then -n else n;
    ReadDecimal(m, rest);
    if n < 0 {
      assert (IntText(n) + rest)[1..] == Codes(Decimal(m)) + rest;
    } else {
      assert (IntText(n) + rest)[0] == Codes(Decimal(m))[0];
    }
  }

  /** What may follow a serialized value: anything, except a digit after an integer. */
  predicate MayFollow(v: Value, rest: Text) {
    v.Int? ==> rest == [] || !IsDigitCode(rest[0])
  }

  ghost predicate ReadsBack(v: Value)
    requires Admissible(v)
  {
    forall rest | MayFollow(v, rest) :: ReadValue(Serialized(v) + rest) == Some((Meaning(v), rest))
  }

  lemma ReadMemberText(name: Text, v: Value, rest: Text)
    requires Admissible(v) && ReadsBack(v) && MayFollow(v, rest)
    ensures var s := MemberText(name, Serialized(v)) + rest;
      && ReadString(s) == Some((name, [COLON] + Serialized(v) + rest))
      && ReadValue(([COLON] + Serialized(v) + rest)[1..]) == Some((Meaning(v), rest))
  {
    hide ReadString, ReadValue, Quoted, Serialized, Meaning;
    var s := MemberText(name, Serialized(v)) + rest;
    assert s == Quoted(name) + ([COLON] + Serialized(v) + rest);
    ReadQuoted(name, [COLON] + Serialized(v) + rest);
    assert ([COLON] + Serialized(v) + rest)[1..] == Serialized(v) + rest;
  }

  /** A list of members reads back in the order it was written. */
  lemma {:induction false} ReadJoined(xs: seq<Named<Value>>, rest: Text)
    requires xs != [] && forall i | 0 <= i < |xs| :: Admissible(xs[i].value) && ReadsBack(xs[i].value)
    ensures ReadMembers(Joined(Members(xs)) + [CLOSE] + rest) == Some((Meanings(xs), rest))
  {
    hide ReadString, ReadValue, Quoted, Serialized, Meaning, ReadsBack, MemberText;
    var first := MemberText(xs[0].name, Serialized(xs[0].value));
    var s := Joined(Members(xs)) + [CLOSE] + rest;
    if |xs| == 1 {
      assert xs[1..] == [] && Members(xs) == [Named(xs[0].name, Serialized(xs[0].value))];
      assert s == first + ([CLOSE] + rest);
      ReadMemberText(xs[0].name, xs[0].value, [CLOSE] + rest);
      assert Meanings(xs[1..]) == [] && Meanings(xs) == [Named(xs[0].name, Meaning(xs[0].value))];
      assert ([CLOSE] + rest)[1..] == rest;
    } else {
      var tail := Joined(Members(xs[1..])) + [CLOSE] + rest;
      assert Members(xs)[1..] == Members(xs[1..]) && Members(xs[1..]) != [];
      assert s == first + ([COMMA] + tail);
      ReadMemberText(xs[0].name, xs[0].value, [COMMA] + tail);
      ReadJoined(xs[1..], rest);
      assert ([COMMA] + tail)[1..] == tail;
    }
  }

  lemma JoinedStarts(ms: seq<Named<Text>>)
    requires ms != []
    ensures Joined(ms) != [] && Joined(ms)[0] == QUOTE
  {
  }

  lemma {:induction false} MeaningsInsert(x: Named<Value>, xs: seq<Named<Value>>)
    ensures Meanings(Insert(x, xs)) == Insert(Named(x.name, Meaning(x.value)), Meanings(xs))
  {
    hide Meaning, NameBelow;
    if xs != [] && NameBelow(xs[0].name, x.name) {
      MeaningsInsert(x, xs[1..]);
      assert Meanings(xs)[1..] == Meanings(xs[1..]);
    } else {
      assert ([x] + xs)[1..] == xs;
    }
  }

  lemma {:induction false} MeaningsSort(xs: seq<Named<Value>>)
    ensures Meanings(Sort(xs)) == Sort(Meanings(xs))
  {
    hide Meaning, NameBelow;
    if xs != [] {
      MeaningsSort(xs[1..]);
      MeaningsInsert(xs[0], Sort(xs[1..]));
      assert Meanings(xs)[1..] == Meanings(xs[1..]);
    }
  }

  /** Relabelling values keeps the names. */
  lemma {:induction false} MeaningsNames(xs: seq<Named<Value>>)
    ensures MapOf(Meanings(xs)).Keys == MapOf(xs).Keys
    ensures DistinctNames(xs) ==> DistinctNames(Meanings(xs))
  {
    hide Meaning;
    if xs != [] {
      MeaningsNames(xs[1..]);
      assert Meanings(xs)[1..] == Meanings(xs[1..]);
    }
  }

  lemma {:induction false} NamesAreScalar(xs: seq<Named<Value>>)
    requires forall i | 0 <= i < |xs| :: IsScalarText(xs[i].name)
    ensures ScalarNames(xs)
  {
    if xs != [] {
      NamesAreScalar(xs[1..]);
    }
  }

  lemma RoundTripDict(entries: seq<Named<Value>>)
    requires Admissible(Dict(entries)) && IsPythonValue(Dict(entries))
    requires forall i | 0 <= i < |entries| :: Admissible(entries[i].value) && ReadsBack(entries[i].value)
    ensures ReadsBack(Dict(entries))
  {
    var sorted := Sort(entries);
    SortAdmissible(entries);
    MembersSort(entries);
    MeaningsSort(entries);
    MeaningsNames(entries);
    NamesAreScalar(entries);
    SortFacts(Meanings(entries));
    forall rest: Text ensures ReadValue(Serialized(Dict(entries)) + rest) == Some((Meaning(Dict(entries)), rest)) {
      SortMembers(entries);
      if entries == [] {
        assert Serialized(Dict(entries)) + rest == [OPEN, CLOSE] + rest;
      } else {
        ReadDict(entries, sorted, rest);
      }
    }
  }

  lemma ReadDict(entries: seq<Named<Value>>, sorted: seq<Named<Value>>, rest: Text)
    requires sorted != [] && forall i | 0 <= i < |sorted| :: Admissible(sorted[i].value) && ReadsBack(sorted[i].value)
    requires MapOf(Meanings(sorted)) == MapOf(Meanings(entries))
    ensures ReadValue([OPEN] + Joined(Members(sorted)) + [CLOSE] + rest) == Some((Meaning(Dict(entries)), rest))
  {
    hide Serialized, ReadsBack, ReadMembers, Meanings, MapOf;
    var s := [OPEN] + Joined(Members(sorted)) + [CLOSE] + rest;
    ReadJoined(sorted, rest);
    JoinedStarts(Members(sorted));
    assert s[1..] == Joined(Members(sorted)) + [CLOSE] + rest;
    assert s[1] == QUOTE;
  }

  /**
   The serialized text of an admissible value, followed by anything (by no
   digit, if the value is an integer), reads back as the value and the rest.
   */
  lemma {:induction false} RoundTrip(v: Value)
    requires Admissible(v) && IsPythonValue(v)
    ensures ReadsBack(v)
  {
    match v
    case Str(t) =>
      forall rest: Text ensures ReadValue(Serialized(v) + rest) == Some((Meaning(v), rest)) {
        ReadQuoted(t, rest);
        assert (Serialized(v) + rest)[0] == QUOTE;
      }
    case Int(n) =>
      forall rest | MayFollow(v, rest) ensures ReadValue(Serialized(v) + rest) == Some((Meaning(v), rest)) {
        ReadIntText(n, rest);
      }
    case Dict(entries) =>
      forall i | 0 <= i < |entries| ensures Admissible(entries[i].value) && ReadsBack(entries[i].value) {
        RoundTrip(entries[i].value);
      }
      RoundTripDict(entries);
    case Unsupported =>
  }

  // ---- Canonicity ----

  lemma {:induction false} MembersByMeaning(xs: seq<Named<Value>>)
    requires forall i | 0 <= i < |xs| :: Admissible(xs[i].value)
    ensures MapOf(Members(xs)).Keys == MapOf(Meanings(xs)).Keys
    ensures DistinctNames(xs) ==> DistinctNames(Members(xs))
    ensures DistinctNames(xs) ==> forall i | 0 <= i < |xs| ::
              && xs[i].name in MapOf(Members(xs)) && MapOf(Members(xs))[xs[i].name] == Serialized(xs[i].value)
              && xs[i].name in MapOf(Meanings(xs)) && MapOf(Meanings(xs))[xs[i].name] == Meaning(xs[i].value)
    ensures MapOf(xs).Keys == MapOf(Members(xs)).Keys
  {
    hide Meaning, Serialized;
    if xs != [] {
      MembersByMeaning(xs[1..]);
      assert Meanings(xs)[1..] == Meanings(xs[1..]) && Members(xs)[1..] == Members(xs[1..]);
      if DistinctNames(xs) {
        forall i | 0 < i < |xs| ensures xs[i].name != xs[0].name {
          assert xs[1..][i - 1] == xs[i];
        }
      }
    }
  }

  lemma SameMembers(xs: seq<Named<Value>>, ys: seq<Named<Value>>)
    requires DistinctNames(xs) && DistinctNames(ys)
    requires forall i | 0 <= i < |xs| :: Admissible(xs[i].value)
    requires forall i | 0 <= i < |ys| :: Admissible(ys[i].value)
    requires MapOf(Meanings(xs)) == MapOf(Meanings(ys))
    requires forall i, j | 0 <= i < |xs| && 0 <= j < |ys| && Meaning(xs[i].value) == Meaning(ys[j].value) ::
               Serialized(xs[i].value) == Serialized(ys[j].value)
    ensures MapOf(Members(xs)) == MapOf(Members(ys))
  {
    hide Meaning, Serialized;
    MembersByMeaning(xs);
    MembersByMeaning(ys);
    hide Members, Meanings, DistinctNames;
    forall name | name in MapOf(Members(xs)) ensures MapOf(Members(xs))[name] == MapOf(Members(ys))[name] {
      assert name in MapOf(xs) && name in MapOf(Meanings(ys)) && name in MapOf(ys);
      var i := NameIndex(xs, name);
      var j := NameIndex(ys, name);
      hide MapOf;
      assert Meaning(xs[i].value) == MapOf(Meanings(xs))[name] == Meaning(ys[j].value);
    }
  }

  /** Values with equal contents have equal text, whatever the insertion order of their dictionaries. */
  lemma {:induction false} TextOfMeaning(v: Value, w: Value)
    requires Admissible(v) && IsPythonValue(v) && Admissible(w) && IsPythonValue(w)
    requires Meaning(v) == Meaning(w)
    ensures Serialized(v) == Serialized(w)
  {
    if v.Dict? {
      var xs, ys := v.entries, w.entries;
      forall i, j | 0 <= i < |xs| && 0 <= j < |ys| && Meaning(xs[i].value) == Meaning(ys[j].value)
        ensures Serialized(xs[i].value) == Serialized(ys[j].value)
      {
        TextOfMeaning(xs[i].value, ys[j].value);
      }
      SameMembers(xs, ys);
      NamesAreScalar(xs);
      NamesAreScalar(ys);
      MembersByMeaning(xs);
      MembersByMeaning(ys);
      SortFacts(Members(xs));
      SortFacts(Members(ys));
      SortedUnique(Sort(Members(xs)), Sort(Members(ys)));
    }
  }

  /** The serialized text is a canonical name for the contents: equal texts exactly for equal contents. */
  lemma TextIsCanonical(v: Value, w: Value)
    requires Admissible(v) && IsPythonValue(v) && Admissible(w) && IsPythonValue(w)
    ensures Serialized(v) == Serialized(w) <==> Meaning(v) == Meaning(w)
  {
    if Serialized(v) == Serialized(w) {
      RoundTrip(v);
      RoundTrip(w);
      var end: Text := [];
      assert ReadValue(Serialized(v) + end) == Some((Meaning(v), end));
      assert ReadValue(Serialized(w) + end) == Some((Meaning(w), end));
    } else if Meaning(v) == Meaning(w) {
      TextOfMeaning(v, w);
    }
  }
}
