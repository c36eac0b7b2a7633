/**
 The payload identity of a processing job: the digest's preimage names the job
 completely, so two admitted jobs share a preimage only when they are the same job.
 */
module JobPayload {
  import opened SortedByName
  import opened RestrictedJcs
  import opened JcsRoundTrip

  const MAX_PACKAGE_BYTES := 536_870_912

  datatype Provider = S3 | GoogleDrive

  /** The fields of a version 2.0 job that vary; its schema, media type and role are fixed. */
  datatype Job = Job(
    jobId: Text, sessionId: Text, provider: Provider, fileId: Text, revision: Text, sha256: Text, sizeBytes: int)

  /** What admission leaves: scalar texts within their bounds, and a bounded positive size. */
  predicate IsAdmitted(job: Job) {
    && IsScalarText(job.jobId) && IsScalarText(job.sessionId)
    && IsScalarText(job.fileId) && 1 <= |job.fileId| <= 1024
    && IsScalarText(job.revision) && 1 <= |job.revision| <= 255
    && IsScalarText(job.sha256) && |job.sha256| == 64
    && 1 <= job.sizeBytes <= MAX_PACKAGE_BYTES
  }

  function ProviderName(p: Provider): Text {
    match p case S3 => Codes("s3") case GoogleDrive => Codes("google_drive")
  }

  function ArtifactObject(job: Job): Value {
    Dict([
      Named(Codes("provider"), Str(ProviderName(job.provider))),
      Named(Codes("file_id"), Str(job.fileId)),
      Named(Codes("revision"), Str(job.revision)),
      Named(Codes("sha256"), Str(job.sha256)),
      Named(Codes("size_bytes"), Int(job.sizeBytes)),
      Named(Codes("mime_type"), Str(Codes("application/zip"))),
      Named(Codes("role"), Str(Codes("raw_package")))])
  }

  function SemanticObject(job: Job): Value {
    Dict([
      Named(Codes("schema_version"), Str(Codes("2.0"))),
      Named(Codes("job_id"), Str(job.jobId)),
      Named(Codes("session_id"), Str(job.sessionId)),
      Named(Codes("input_artifact"), ArtifactObject(job))])
  }

  // ---- UTF-8 ----

  function Utf8Char(c: CodePoint): (r: seq<nat>)
    ensures 1 <= |r| <= 4
  {
    if c < 0x80 then [c]
    else if c < 0x800 then [0xC0 + c / 0x40, 0x80 + c % 0x40]
    else if c < 0x1_0000 then [0xE0 + c / 0x1000, 0x80 + c / 0x40 % 0x40, 0x80 + c % 0x40]
    else [0xF0 + c / 0x4_0000, 0x80 + c / 0x1000 % 0x40, 0x80 + c / 0x40 % 0x40, 0x80 + c % 0x40]
  }

  function Utf8(t: Text): seq<nat> {
    if t == [] then [] else Utf8Char(t[0]) + Utf8(t[1..])
  }

  function Utf8Length(first: nat): nat {
    if first < 0x80 then 1 else if first < 0xE0 then 2 else if first < 0xF0 then 3 else 4
  }

  lemma Utf8CharLength(c: CodePoint)
    ensures |Utf8Char(c)| == Utf8Length(Utf8Char(c)[0])
  {
  }

  lemma Digits64(c: nat)
    ensures c / 0x40 / 0x40 == c / 0x1000 && c / 0x1000 / 0x40 == c / 0x4_0000
    ensures c == c / 0x40 * 0x40 + c % 0x40
    ensures c / 0x40 == c / 0x1000 * 0x40 + c / 0x40 % 0x40
    ensures c / 0x1000 == c / 0x4_0000 * 0x40 + c / 0x1000 % 0x40
  {
  }

  lemma Utf8CharInjective(c: CodePoint, d: CodePoint)
    requires Utf8Char(c) == Utf8Char(d)
    ensures c == d
  {
    Digits64(c);
    Digits64(d);
    var s, t := Utf8Char(c), Utf8Char(d);
    assert s[0] == t[0];
    if |s| > 1 { assert s[1] == t[1]; }
    if |s| > 2 { assert s[2] == t[2]; }
    if |s| > 3 { assert s[3] == t[3]; }
  }

  lemma Utf8CharDetermined(c: CodePoint, x: seq<nat>, d: CodePoint, y: seq<nat>)
    requires Utf8Char(c) + x == Utf8Char(d) + y
    ensures c == d && x == y
  {
    hide Utf8Char, Utf8Length;
    var s, t := Utf8Char(c) + x, Utf8Char(d) + y;
    Utf8CharLength(c);
    Utf8CharLength(d);
    assert s[0] == Utf8Char(c)[0] && t[0] == Utf8Char(d)[0];
    assert Utf8Char(c) == s[..|Utf8Char(c)|] && Utf8Char(d) == t[..|Utf8Char(d)|];
    Utf8CharInjective(c, d);
    assert x == s[|Utf8Char(c)|..] && y == t[|Utf8Char(d)|..];
  }

  lemma {:induction false} Utf8Injective(a: Text, b: Text)
    requires Utf8(a) == Utf8(b)
    ensures a == b
  {
    if a != [] && b != [] {
      Utf8CharDetermined(a[0], Utf8(a[1..]), b[0], Utf8(b[1..]));
      Utf8Injective(a[1..], b[1..]);
    }
  }

  // ---- The preimage ----

  /** The digest scheme's domain prefix, its separators written as NUL. */
  const DOMAIN_PREFIX: Text := Codes("workflow-helper\0processing-job-v2\0payload-digest\0sha256-jcs-v1\0")

  lemma SemanticObjectAdmissible(job: Job)
    requires IsAdmitted(job)
    ensures Admissible(SemanticObject(job))
  {
  }

  function Preimage(job: Job): seq<nat>
    requires IsAdmitted(job)
  {
    SemanticObjectAdmissible(job);
    DOMAIN_PREFIX + Utf8(Serialized(SemanticObject(job)))
  }

  // ---- The preimage names the job ----

  lemma CodesDiffer(a: string, b: string)
    ensures a != b ==> Codes(a) != Codes(b)
  {
    if a != b && |a| == |b| {
      var i :| 0 <= i < |a| && a[i] != b[i];
      assert Codes(a)[i] != Codes(b)[i];
    }
  }

  lemma ArtifactNamesDistinct(job: Job)
    ensures DistinctNames(ArtifactObject(job).entries)
  {
    assert "provider"[0] != "revision"[0];
    CodesDiffer("provider", "revision");
    hide ProviderName;
    DistinctByIndex(ArtifactObject(job).entries);
  }

  lemma SemanticObjectIsPython(job: Job)
    ensures IsPythonValue(SemanticObject(job))
  {
    assert "schema_version"[0] != "input_artifact"[0];
    CodesDiffer("schema_version", "input_artifact");
    ArtifactNamesDistinct(job);
    hide ArtifactObject, ProviderName;
    DistinctByIndex(SemanticObject(job).entries);
    assert IsPythonValue(ArtifactObject(job));
  }

  /** Dictionaries with the same key list and equal contents agree entry by entry. */
  lemma EqualContents(xs: seq<Named<Value>>, ys: seq<Named<Value>>, i: nat)
    requires |xs| == |ys| && i < |xs| && xs[i].name == ys[i].name
    requires DistinctNames(xs) && DistinctNames(ys) && Admissible(Dict(xs)) && Admissible(Dict(ys))
    requires Meaning(Dict(xs)) == Meaning(Dict(ys))
    ensures Meaning(xs[i].value) == Meaning(ys[i].value)
  {
    MembersByMeaning(xs);
    MembersByMeaning(ys);
  }

  function ArtifactNames(): (names: seq<Text>)
    ensures |names| == 7
  {
    [Codes("provider"), Codes("file_id"), Codes("revision"), Codes("sha256"), Codes("size_bytes"),
     Codes("mime_type"), Codes("role")]
  }

  lemma ArtifactEntries(j: Job, i: nat)
    requires i < 7
    ensures ArtifactObject(j).Dict? && |ArtifactObject(j).entries| == 7
    ensures ArtifactObject(j).entries[i].name == ArtifactNames()[i]
  {
  }

  lemma ArtifactAdmissible(j: Job)
    requires IsAdmitted(j)
    ensures Admissible(ArtifactObject(j))
  {
  }

  lemma SameArtifactEntry(j: Job, k: Job, i: nat)
    requires IsAdmitted(j) && IsAdmitted(k) && i < 7
    requires ArtifactObject(j).Dict? && ArtifactObject(k).Dict? && |ArtifactObject(j).entries| == |ArtifactObject(k).entries| == 7
    requires Meaning(ArtifactObject(j)) == Meaning(ArtifactObject(k))
    ensures Meaning(ArtifactObject(j).entries[i].value) == Meaning(ArtifactObject(k).entries[i].value)
  {
    ArtifactNamesDistinct(j);
    ArtifactNamesDistinct(k);
    ArtifactEntries(j, i);
    ArtifactEntries(k, i);
    ArtifactAdmissible(j);
    ArtifactAdmissible(k);
    hide ArtifactObject, DistinctNames, Meanings, MapOf, IsScalarText, Admissible, IsAdmitted;
    EqualContents(ArtifactObject(j).entries, ArtifactObject(k).entries, i);
  }

  lemma SameArtifact(j: Job, k: Job)
    requires IsAdmitted(j) && IsAdmitted(k) && Meaning(ArtifactObject(j)) == Meaning(ArtifactObject(k))
    ensures j.provider == k.provider && j.fileId == k.fileId && j.revision == k.revision
    ensures j.sha256 == k.sha256 && j.sizeBytes == k.sizeBytes
  {
    CodesDiffer("s3", "google_drive");
    SameArtifactEntry(j, k, 0);
    SameArtifactEntry(j, k, 1);
    SameArtifactEntry(j, k, 2);
    SameArtifactEntry(j, k, 3);
    SameArtifactEntry(j, k, 4);
    hide Codes, Meanings, IsAdmitted;
  }

  lemma SameJob(j: Job, k: Job)
    requires IsAdmitted(j) && IsAdmitted(k) && Meaning(SemanticObject(j)) == Meaning(SemanticObject(k))
    ensures j == k
  {
    SemanticObjectAdmissible(j);
    SemanticObjectAdmissible(k);
    SemanticObjectIsPython(j);
    SemanticObjectIsPython(k);
    hide DistinctNames, Meanings, MapOf, IsScalarText, Admissible, ArtifactObject;
    var xs, ys := SemanticObject(j).entries, SemanticObject(k).entries;
    EqualContents(xs, ys, 1);
    EqualContents(xs, ys, 2);
    EqualContents(xs, ys, 3);
    SameArtifact(j, k);
  }

  /** The digest's preimage names the job: admitted jobs with one preimage are one job. */
  lemma PreimageNamesJob(j: Job, k: Job)
    requires IsAdmitted(j) && IsAdmitted(k)
    ensures Preimage(j) == Preimage(k) <==> j == k
  {
    if Preimage(j) == Preimage(k) {
      SemanticObjectAdmissible(j);
      SemanticObjectAdmissible(k);
      SemanticObjectIsPython(j);
      SemanticObjectIsPython(k);
      var a, b := Serialized(SemanticObject(j)), Serialized(SemanticObject(k));
      hide SemanticObject, IsAdmitted, Serialized, Meaning;
      assert Utf8(a) == Preimage(j)[|DOMAIN_PREFIX|..] && Utf8(b) == Preimage(k)[|DOMAIN_PREFIX|..];
      Utf8Injective(a, b);
      TextIsCanonical(SemanticObject(j), SemanticObject(k));
      SameJob(j, k);
    }
  }
}
