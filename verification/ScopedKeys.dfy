/**
 Decimal text, as the key printers write it and the key parsers read it back.
 */
module Decimals {

  predicate IsDigit(c: char) {
    '0' <= c <= '9'
  }

  predicate AllDigits(s: string) {
    forall i | 0 <= i < |s| :: IsDigit(s[i])
  }

  function DigitChar(d: nat): (c: char)
    requires d < 10
    ensures IsDigit(c) && c as int == '0' as int + d
  {
    ('0' as int + d) as char
  }

  /** `str(n)` */
  function Decimal(n: nat): (s: string)
    ensures |s| > 0 && AllDigits(s)
  {
    if n < 10 then [DigitChar(n)] else Decimal(n / 10) + [DigitChar(n % 10)]
  }

  /** `int(s)`; leading zeros are accepted. */
  function DecimalValue(s: string): nat
    requires AllDigits(s)
  {
    if s == [] then 0
    else 10 * DecimalValue(s[..|s| - 1]) + (s[|s| - 1] as int - '0' as int)
  }

  lemma {:induction false} ValueOfDecimal(n: nat)
    ensures DecimalValue(Decimal(n)) == n
  {
    if n >= 10 {
      ValueOfDecimal(n / 10);
      assert Decimal(n)[..|Decimal(n)| - 1] == Decimal(n / 10);
    } else {
      assert Decimal(n)[..0] == [];
    }
  }

  lemma {:induction false} DecimalHead(n: nat)
    requires n > 0
    ensures Decimal(n)[0] != '0'
  {
    if n >= 10 {
      DecimalHead(n / 10);
    }
  }

  /** Reading a length text and printing it again returns the same text when it has no leading zero. */
  lemma {:induction false} DecimalOfValue(s: string)
    requires s != [] && AllDigits(s) && s[0] != '0'
    ensures DecimalValue(s) > 0 && Decimal(DecimalValue(s)) == s
  {
    var front, last := s[..|s| - 1], s[|s| - 1];
    assert s == front + [last];
    if front != [] {
      DecimalOfValue(front);
    } else {
      assert DecimalValue(front) == 0;
    }
  }
}

/**
 Length-prefixed tenant/workspace keys: the printers, their parsers, and the
 fact that a key names its scope, kind and identifier without ambiguity.
 */
module ScopedKeys {
  import opened Basics
  import opened Decimals

  const KEY_VERSION := "whscope1|"
  const MAX_PUBLIC_ID_LENGTH := 256

  predicate IsScopeIdHead(c: char) {
    'a' <= c <= 'z' || IsDigit(c)
  }

  predicate IsScopeIdChar(c: char) {
    IsScopeIdHead(c) || c == '.' || c == '_' || c == '-'
  }

  /** `^[a-z0-9][a-z0-9._-]{2,63}$` */
  predicate IsScopeId(s: string) {
    && 3 <= |s| <= 64
    && IsScopeIdHead(s[0])
    && forall i | 0 < i < |s| :: IsScopeIdChar(s[i])
  }

  /** `^[a-z][a-z0-9_]{1,31}$` */
  predicate IsKind(s: string) {
    && 2 <= |s| <= 32
    && 'a' <= s[0] <= 'z'
    && forall i | 0 < i < |s| :: 'a' <= s[i] <= 'z' || IsDigit(s[i]) || s[i] == '_'
  }

  predicate IsPublicId(s: string) {
    HasText(s) && |s| <= MAX_PUBLIC_ID_LENGTH
  }

  datatype ScopeFields = ScopeFields(tenantId: string, workspaceId: string)

  /** Construction validates both identifiers, so every scope value is valid. */
  type Scope = s: ScopeFields | IsScopeId(s.tenantId) && IsScopeId(s.workspaceId)
    witness ScopeFields("aaa", "aaa")

  // ---- Printing ----

  function Segment(value: string): string {
    Decimal(|value|) + ":" + value
  }

  function ScopePrefix(scope: Scope): string {
    KEY_VERSION + Segment(scope.tenantId) + Segment(scope.workspaceId)
  }

  function KindPrefix(scope: Scope, kind: string): Option<string> {
    if IsKind(kind) then Some(ScopePrefix(scope) + Segment(kind)) else None
  }

  function Qualify(scope: Scope, kind: string, publicId: string): Option<string> {
    if IsKind(kind) && IsPublicId(publicId)
    then Some(ScopePrefix(scope) + Segment(kind) + Segment(publicId))
    else None
  }

  // ---- Parsing ----

  /** `s.find(c, from)` */
  function Find(s: string, c: char, from: nat): (r: int)
    ensures r == -1 || (from <= r < |s| && s[r] == c)
    ensures forall i | from <= i < (if r == -1 then |s| else r) :: s[i] != c
    decreases |s| - from
  {
    if from >= |s| then -1
    else if s[from] == c then from
    else Find(s, c, from + 1)
  }

  /** Reads `<digits>:<value>` at an offset; `None` stands for the raised `ValueError`. */
  function ReadSegment(text: string, offset: nat): (r: Option<(string, nat)>)
    ensures r.Some? ==> offset < r.value.1 <= |text|
  {
    var separator := Find(text, ':', offset);
    if separator == -1 then None
    else
      var digits := text[offset..separator];
      if digits == "" || !AllDigits(digits) then None
      else
        var length := DecimalValue(digits);
        var start := separator + 1;
        var end := start + length;
        if length < 1 || end > |text| then None else Some((text[start..end], end))
  }

  /** The identifier behind a namespace prefix and one segment naming the kind. */
  function UnqualifyAfter(prefix: string, kind: string, key: string): Option<string> {
    if !(prefix <= key) then None
    else
      match ReadSegment(key, |prefix|)
      case None => None
      case Some((parsedKind, middle)) =>
        match ReadSegment(key, middle)
        case None => None
        case Some((publicId, end)) =>
          if parsedKind != kind || end != |key| then None else Some(publicId)
  }

  function Unqualify(scope: Scope, kind: string, key: string): Option<string> {
    UnqualifyAfter(ScopePrefix(scope), kind, key)
  }

  /** One iteration of the scope-key check: the end of a canonical scope segment at `offset`. */
  function ScopeSegmentEnd(key: string, offset: nat): (r: Option<nat>)
    ensures r.Some? ==> offset < r.value <= |key|
  {
    var separator := Find(key, ':', offset);
    if separator <= offset || !AllDigits(key[offset..separator]) then None
    else
      var length := DecimalValue(key[offset..separator]);
      var start := separator + 1;
      var end := start + length;
      if length < 3 || length > 64 || end > |key| then None
      else if key[offset..separator] != Decimal(length) then None
      else if !IsScopeId(key[start..end]) then None
      else Some(end)
  }

  /** The control store's independent scope-key check. */
  predicate ValidScopeKey(key: string) {
    && KEY_VERSION <= key
    && var first := ScopeSegmentEnd(key, |KEY_VERSION|);
    && first.Some?
    && var second := ScopeSegmentEnd(key, first.value);
    && second.Some?
    && second.value == |key|
  }

  // ---- Round trips ----

  lemma FindAfterDigits(text: string, offset: nat, separator: nat)
    requires offset <= separator < |text| && text[separator] == ':' && AllDigits(text[offset..separator])
    ensures Find(text, ':', offset) == separator
  {
    forall i | offset <= i < separator ensures text[i] != ':' {
      assert text[i] == text[offset..separator][i - offset];
    }
  }

  /** Where a length text, its separator and the value stand in a longer text. */
  lemma SegmentParts(text: string, before: string, digits: string, value: string, rest: string)
    requires text == before + digits + ":" + value + rest
    ensures var separator := |before| + |digits|;
      && separator + 1 + |value| <= |text| && text[separator] == ':'
      && text[|before|..separator] == digits && text[separator + 1..separator + 1 + |value|] == value
  {
  }

  lemma ReadSegmentAt(text: string, offset: nat, separator: nat, value: string)
    requires offset < separator && separator + 1 + |value| <= |text| && text[separator] == ':' && value != ""
    requires AllDigits(text[offset..separator]) && DecimalValue(text[offset..separator]) == |value|
    requires text[separator + 1..separator + 1 + |value|] == value
    ensures ReadSegment(text, offset) == Some((value, separator + 1 + |value|))
  {
    FindAfterDigits(text, offset, separator);
  }

  /** A segment with any accepted length text reads back as its value, whatever surrounds it. */
  lemma ReadPaddedSegment(before: string, digits: string, value: string, rest: string)
    requires value != "" && digits != "" && AllDigits(digits) && DecimalValue(digits) == |value|
    ensures ReadSegment(before + digits + ":" + value + rest, |before|)
         == Some((value, |before| + |digits| + 1 + |value|))
  {
    var text := before + digits + ":" + value + rest;
    hide ReadSegment, Find, DecimalValue, AllDigits;
    SegmentParts(text, before, digits, value, rest);
    ReadSegmentAt(text, |before|, |before| + |digits|, value);
  }

  lemma ReadSegmentOfSegment(before: string, value: string, rest: string)
    requires value != ""
    ensures ReadSegment(before + Segment(value) + rest, |before|)
         == Some((value, |before| + |Segment(value)|))
  {
    ValueOfDecimal(|value|);
    ReadPaddedSegment(before, Decimal(|value|), value, rest);
    assert before + Segment(value) + rest == before + Decimal(|value|) + ":" + value + rest;
  }

  /** Segments cancel on the left: the length prefix leaves no ambiguity. */
  lemma SegmentCancels(before: string, a: string, x: string, b: string, y: string)
    requires a != "" && b != ""
    requires before + Segment(a) + x == before + Segment(b) + y
    ensures a == b && x == y
  {
    ReadSegmentOfSegment(before, a, x);
    ReadSegmentOfSegment(before, b, y);
    assert x == (before + Segment(a) + x)[|before| + |Segment(a)|..];
    assert y == (before + Segment(b) + y)[|before| + |Segment(b)|..];
  }

  lemma SegmentsCancel(a: string, x: string, b: string, y: string)
    requires a != "" && b != ""
    requires Segment(a) + x == Segment(b) + y
    ensures a == b && x == y
  {
    assert "" + Segment(a) + x == Segment(a) + x;
    assert "" + Segment(b) + y == Segment(b) + y;
    SegmentCancels("", a, x, b, y);
  }

  lemma ScopePrefixCancels(a: Scope, x: string, b: Scope, y: string)
    requires ScopePrefix(a) + x == ScopePrefix(b) + y
    ensures a == b && x == y
  {
    assert KEY_VERSION + Segment(a.tenantId) + (Segment(a.workspaceId) + x) == ScopePrefix(a) + x;
    assert KEY_VERSION + Segment(b.tenantId) + (Segment(b.workspaceId) + y) == ScopePrefix(b) + y;
    SegmentCancels(KEY_VERSION, a.tenantId, Segment(a.workspaceId) + x, b.tenantId, Segment(b.workspaceId) + y);
    SegmentsCancel(a.workspaceId, x, b.workspaceId, y);
  }

  /** What one segment may look like to the reader: the length may carry leading zeros. */
  ghost predicate PaddedSegment(text: string, value: string) {
    exists digits: string ::
      && digits != "" && AllDigits(digits)
      && DecimalValue(digits) == |value|
      && value != ""
      && text == digits + ":" + value
  }

  lemma ReadSegmentIsPadded(text: string, offset: nat)
    requires ReadSegment(text, offset).Some?
    ensures var (value, end) := ReadSegment(text, offset).value;
            offset <= |text| && PaddedSegment(text[offset..end], value)
  {
    var separator := Find(text, ':', offset);
    var digits := text[offset..separator];
    var (value, end) := ReadSegment(text, offset).value;
    assert text[offset..end] == digits + ":" + value;
  }

  lemma ReadOfPadded(before: string, text: string, value: string, rest: string)
    requires PaddedSegment(text, value)
    ensures ReadSegment(before + text + rest, |before|) == Some((value, |before| + |text|))
  {
    var digits :| digits != "" && AllDigits(digits) && DecimalValue(digits) == |value| && text == digits + ":" + value;
    ReadPaddedSegment(before, digits, value, rest);
    assert before + text + rest == before + digits + ":" + value + rest;
  }

  lemma UnqualifyOfPadded(prefix: string, kind: string, publicId: string, k: string, p: string)
    requires PaddedSegment(k, kind) && PaddedSegment(p, publicId)
    ensures UnqualifyAfter(prefix, kind, prefix + k + p) == Some(publicId)
  {
    hide ReadSegment, PaddedSegment;
    ReadOfPadded(prefix, k, kind, p);
    ReadOfPadded(prefix + k, p, publicId, "");
    assert prefix + k + p == (prefix + k) + p + "";
  }

  lemma PaddedOfUnqualify(prefix: string, kind: string, key: string) returns (k: string, p: string)
    requires UnqualifyAfter(prefix, kind, key).Some?
    ensures PaddedSegment(k, kind) && PaddedSegment(p, UnqualifyAfter(prefix, kind, key).value)
    ensures key == prefix + k + p
  {
    var (_, middle) := ReadSegment(key, |prefix|).value;
    var (_, end) := ReadSegment(key, middle).value;
    ReadSegmentIsPadded(key, |prefix|);
    ReadSegmentIsPadded(key, middle);
    k, p := key[|prefix|..middle], key[middle..end];
  }

  /**
   Exactly the keys that unqualify: the scope prefix followed by two segments
   whose length texts may be zero-padded. The printers' own keys are the
   unpadded ones, so `Unqualify` is a left inverse of `Qualify` only.
   */
  lemma UnqualifyExactly(scope: Scope, kind: string, key: string, publicId: string)
    ensures Unqualify(scope, kind, key) == Some(publicId)
       <==> exists k, p :: PaddedSegment(k, kind) && PaddedSegment(p, publicId) && key == ScopePrefix(scope) + k + p
  {
    var prefix := ScopePrefix(scope);
    if Unqualify(scope, kind, key) == Some(publicId) {
      var k, p := PaddedOfUnqualify(prefix, kind, key);
    }
    forall k, p | PaddedSegment(k, kind) && PaddedSegment(p, publicId) && key == prefix + k + p
      ensures Unqualify(scope, kind, key) == Some(publicId)
    {
      UnqualifyOfPadded(prefix, kind, publicId, k, p);
    }
  }

  lemma SegmentIsPadded(value: string)
    requires value != ""
    ensures PaddedSegment(Segment(value), value)
  {
    ValueOfDecimal(|value|);
  }

  /** Reading a qualified key in its own scope and kind returns the public identifier. */
  lemma UnqualifyOfQualify(scope: Scope, kind: string, publicId: string)
    requires Qualify(scope, kind, publicId).Some?
    ensures Unqualify(scope, kind, Qualify(scope, kind, publicId).value) == Some(publicId)
  {
    SegmentIsPadded(kind);
    SegmentIsPadded(publicId);
    UnqualifyOfPadded(ScopePrefix(scope), kind, publicId, Segment(kind), Segment(publicId));
  }

  lemma PaddedExamples()
    ensures PaddedSegment("03:job", "job") && PaddedSegment("1:x", "x")
    ensures Segment("job")[0] == '3'
  {
    assert DecimalValue("03"[..1]) == 0 && DecimalValue("1"[..0]) == 0;
    assert "03:job" == "03" + ":" + "job" && DecimalValue("03") == 3;
    assert "1:x" == "1" + ":" + "x" && DecimalValue("1") == 1;
  }

  /** A key the printers never write, accepted by the reader: the converse round trip fails. */
  lemma UnqualifyAcceptsPaddedKey(scope: Scope)
    ensures var key := ScopePrefix(scope) + "03:job" + "1:x";
      Unqualify(scope, "job", key) == Some("x") && Qualify(scope, "job", "x") != Some(key)
  {
    hide PaddedSegment, ScopePrefix;
    var key := ScopePrefix(scope) + "03:job" + "1:x";
    PaddedExamples();
    UnqualifyExactly(scope, "job", key, "x");
    assert key[|ScopePrefix(scope)|] == '0';
    assert (ScopePrefix(scope) + Segment("job") + Segment("x"))[|ScopePrefix(scope)|] == Segment("job")[0];
  }

  lemma PaddedIsPrinted(text: string, value: string)
    requires PaddedSegment(text, value)
    ensures text != "" && (text == Segment(value) <==> text[0] != '0')
  {
    var digits :| digits != "" && AllDigits(digits) && DecimalValue(digits) == |value| && value != "" && text == digits + ":" + value;
    assert text[0] == digits[0];
    DecimalHead(|value|);
    assert Segment(value)[0] == Decimal(|value|)[0];
    if digits[0] != '0' {
      DecimalOfValue(digits);
    }
  }

  /** Where the reader finds the identifier's segment. */
  function SecondSegmentAt(scope: Scope, key: string): nat {
    match ReadSegment(key, |ScopePrefix(scope)|)
    case None => |key|
    case Some((_, middle)) => middle
  }

  lemma SegmentsPlaced(scope: Scope, kind: string, key: string) returns (k: string, p: string)
    requires Unqualify(scope, kind, key).Some?
    ensures PaddedSegment(k, kind) && PaddedSegment(p, Unqualify(scope, kind, key).value)
    ensures k != "" && p != "" && key == ScopePrefix(scope) + k + p
    ensures SecondSegmentAt(scope, key) == |ScopePrefix(scope)| + |k| < |key|
  {
    var prefix := ScopePrefix(scope);
    k, p := PaddedOfUnqualify(prefix, kind, key);
    PaddedIsPrinted(k, kind);
    PaddedIsPrinted(p, Unqualify(scope, kind, key).value);
    ReadOfPadded(prefix, k, kind, p);
  }

  /**
   When printing undoes reading: exactly for a kind and an identifier that the
   printer admits and two length texts without a leading zero.
   */
  lemma QualifyOfUnqualify(scope: Scope, kind: string, key: string)
    requires Unqualify(scope, kind, key).Some?
    ensures |ScopePrefix(scope)| < SecondSegmentAt(scope, key) < |key|
    ensures Qualify(scope, kind, Unqualify(scope, kind, key).value) == Some(key)
       <==> && IsKind(kind) && IsPublicId(Unqualify(scope, kind, key).value)
            && key[|ScopePrefix(scope)|] != '0' && key[SecondSegmentAt(scope, key)] != '0'
  {
    var prefix, publicId := ScopePrefix(scope), Unqualify(scope, kind, key).value;
    var k, p := SegmentsPlaced(scope, kind, key);
    PaddedIsPrinted(k, kind);
    PaddedIsPrinted(p, publicId);
    assert key[|prefix|] == k[0] && key[|prefix| + |k|] == p[0];
    if IsKind(kind) && IsPublicId(publicId) && key == prefix + Segment(kind) + Segment(publicId) {
      ReadSegmentOfSegment(prefix, kind, Segment(publicId));
      assert k == key[|prefix|..|prefix| + |k|] == Segment(kind);
      assert p == key[|prefix| + |k|..] == Segment(publicId);
    }
    hide PaddedSegment, ReadSegment, ScopePrefix, Segment, Unqualify, IsKind, IsPublicId;
  }

  lemma SegmentVectors()
    ensures Segment("aaa") == "3:aaa" && Segment("bbb") == "3:bbb"
    ensures Segment("job") == "3:job" && Segment("x") == "1:x"
  {
    assert Decimal(3) == "3" && Decimal(1) == "1";
    hide Decimal;
  }

  lemma QualifyJoins(scope: Scope, kind: string, publicId: string, key: string)
    requires IsKind(kind) && IsPublicId(publicId)
    requires key == KEY_VERSION + Segment(scope.tenantId) + Segment(scope.workspaceId) + Segment(kind) + Segment(publicId)
    ensures Qualify(scope, kind, publicId) == Some(key)
  {
    hide Segment, IsKind, IsPublicId;
  }

  /** One key in full. */
  lemma KeyVector(scope: Scope)
    requires scope == ScopeFields("aaa", "bbb")
    ensures Qualify(scope, "job", "x") == Some("whscope1|3:aaa3:bbb3:job1:x")
  {
    SegmentVectors();
    assert "x"[0] == 'x';
    assert HasText("x") && IsKind("job") && IsPublicId("x") && KEY_VERSION == "whscope1|";
    assert "whscope1|" + "3:aaa" + "3:bbb" + "3:job" + "1:x" == "whscope1|3:aaa3:bbb3:job1:x";
    hide *;
    QualifyJoins(scope, "job", "x", "whscope1|3:aaa3:bbb3:job1:x");
  }

  // ---- Injectivity and prefix-freeness ----

  /** A qualified key determines its scope, kind and public identifier. */
  lemma QualifyInjective(s: Scope, k: string, id: string, s': Scope, k': string, id': string)
    requires Qualify(s, k, id).Some? && Qualify(s, k, id) == Qualify(s', k', id')
    ensures s == s' && k == k' && id == id'
  {
    var tail, tail' := Segment(k) + Segment(id), Segment(k') + Segment(id');
    assert ScopePrefix(s) + tail == Qualify(s, k, id).value;
    assert ScopePrefix(s') + tail' == Qualify(s', k', id').value;
    ScopePrefixCancels(s, tail, s', tail');
    SegmentsCancel(k, Segment(id), k', Segment(id'));
    assert Segment(id) + "" == Segment(id') + "";
    SegmentsCancel(id, "", id', "");
  }

  /** A scope prefix selects exactly that scope's keys. */
  lemma ScopePrefixSelects(s: Scope, s': Scope, k': string, id': string)
    requires Qualify(s', k', id').Some?
    ensures ScopePrefix(s) <= Qualify(s', k', id').value <==> s == s'
  {
    var key := Qualify(s', k', id').value;
    var tail := Segment(k') + Segment(id');
    assert key == ScopePrefix(s') + tail;
    if ScopePrefix(s) <= key {
      assert key == ScopePrefix(s) + key[|ScopePrefix(s)|..];
      ScopePrefixCancels(s, key[|ScopePrefix(s)|..], s', tail);
    }
  }

  /** A kind prefix selects exactly that scope's keys of that kind. */
  lemma KindPrefixSelects(s: Scope, k: string, s': Scope, k': string, id': string)
    requires KindPrefix(s, k).Some? && Qualify(s', k', id').Some?
    ensures KindPrefix(s, k).value <= Qualify(s', k', id').value <==> s == s' && k == k'
  {
    var key := Qualify(s', k', id').value;
    var tail := Segment(k') + Segment(id');
    assert key == ScopePrefix(s') + tail;
    if KindPrefix(s, k).value <= key {
      var rest := key[|KindPrefix(s, k).value|..];
      assert key == ScopePrefix(s) + (Segment(k) + rest);
      ScopePrefixCancels(s, Segment(k) + rest, s', tail);
      SegmentsCancel(k, rest, k', Segment(id'));
    }
  }

  // ---- The control store's own scope-key check ----

  lemma ScopeSegmentEndOfSegment(before: string, value: string, rest: string)
    requires IsScopeId(value)
    ensures ScopeSegmentEnd(before + Segment(value) + rest, |before|) == Some(|before| + |Segment(value)|)
  {
    var digits, text := Decimal(|value|), before + Segment(value) + rest;
    assert text == before + digits + ":" + value + rest;
    SegmentParts(text, before, digits, value, rest);
    FindAfterDigits(text, |before|, |before| + |digits|);
    ValueOfDecimal(|value|);
  }

  lemma ScopeSegmentEndIsSegment(key: string, offset: nat) returns (value: string)
    requires ScopeSegmentEnd(key, offset).Some?
    ensures IsScopeId(value) && offset <= |key|
    ensures key[offset..ScopeSegmentEnd(key, offset).value] == Segment(value)
  {
    var separator := Find(key, ':', offset);
    var end := ScopeSegmentEnd(key, offset).value;
    value := key[separator + 1..end];
    assert key[offset..end] == key[offset..separator] + ":" + value;
  }

  lemma ScopeKeyFields(key: string) returns (scope: Scope)
    requires ValidScopeKey(key)
    ensures key == ScopePrefix(scope)
  {
    hide ScopeSegmentEnd, Segment, IsScopeId;
    var start := |KEY_VERSION|;
    var first := ScopeSegmentEnd(key, start).value;
    var tenant := ScopeSegmentEndIsSegment(key, start);
    var workspace := ScopeSegmentEndIsSegment(key, first);
    scope := ScopeFields(tenant, workspace);
    assert key[..start] == KEY_VERSION && key[first..] == key[first..|key|];
    assert key == key[..start] + key[start..first] + key[first..];
  }

  lemma ScopePrefixIsValid(scope: Scope)
    ensures ValidScopeKey(ScopePrefix(scope))
  {
    var key, front := ScopePrefix(scope), KEY_VERSION + Segment(scope.tenantId);
    ScopeSegmentEndOfSegment(KEY_VERSION, scope.tenantId, Segment(scope.workspaceId));
    ScopeSegmentEndOfSegment(front, scope.workspaceId, "");
    assert key == front + Segment(scope.workspaceId) + "";
    assert KEY_VERSION <= key;
  }

  /** The check accepts exactly the prefixes that the scope printer writes. */
  lemma ValidScopeKeyIsImage(key: string)
    ensures ValidScopeKey(key) <==> exists scope: Scope :: key == ScopePrefix(scope)
  {
    if ValidScopeKey(key) {
      var scope := ScopeKeyFields(key);
    }
    forall scope: Scope | key == ScopePrefix(scope) ensures ValidScopeKey(key) {
      ScopePrefixIsValid(scope);
    }
  }
}
