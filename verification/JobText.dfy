/** The whole text of one job's digest preimage, member by member, and its UTF-8 bytes. */
module JobText {
  import opened Decimals
  import opened SortedByName
  import opened RestrictedJcs
  import opened JobPayload
  import opened JcsOrder

  /** Members as `"name":text`, with commas between. */
  function Listed(members: seq<(string, Text)>): Text {
    if members == [] then []
    else
      Codes("\"" + members[0].0 + "\"") + Codes(":") + members[0].1
      + (if |members| == 1 then [] else Codes(",") + Listed(members[1..]))
  }

  function ArtifactMembers(job: Job): (members: seq<(string, Text)>)
    ensures |members| == 7
  {
    [("file_id", Quoted(job.fileId)),
     ("mime_type", Codes("\"application/zip\"")),
     ("provider", Codes(if job.provider.S3? then "\"s3\"" else "\"google_drive\"")),
     ("revision", Quoted(job.revision)),
     ("role", Codes("\"raw_package\"")),
     ("sha256", Quoted(job.sha256)),
     ("size_bytes", IntText(job.sizeBytes))]
  }

  function ArtifactText(job: Job): Text {
    Codes("{") + Listed(ArtifactMembers(job)) + Codes("}")
  }

  function JobMembers(job: Job): (members: seq<(string, Text)>)
    ensures |members| == 4
  {
    [("input_artifact", ArtifactText(job)),
     ("job_id", Quoted(job.jobId)),
     ("schema_version", Codes("\"2.0\"")),
     ("session_id", Quoted(job.sessionId))]
  }

  function JobJson(job: Job): Text {
    Codes("{") + Listed(JobMembers(job)) + Codes("}")
  }

  // ---- Plain strings ----

  predicate IsPlain(s: string) {
    forall i | 0 <= i < |s| :: ' ' <= s[i] <= '~' && s[i] != '"' && s[i] != '\\'
  }

  lemma {:induction false} PlainEscaped(s: string)
    requires IsPlain(s)
    ensures Escaped(Codes(s)) == Codes(s)
  {
    if s != "" {
      PlainEscaped(s[1..]);
      assert Codes(s)[1..] == Codes(s[1..]);
      assert Codes(s) == [Codes(s)[0]] + Codes(s)[1..];
    }
  }

  lemma PlainString(s: string)
    requires IsPlain(s)
    ensures Quoted(Codes(s)) == Codes("\"" + s + "\"") && IsScalarText(Codes(s))
  {
    PlainEscaped(s);
    assert Codes("\"" + s + "\"") == [QUOTE] + Codes(s) + [QUOTE];
  }

  // ---- Ascending lists ----

  lemma {:induction false} PrecedesOver<T>(order: seq<Named<T>>, i: nat, j: nat)
    requires i < j < |order|
    requires forall k | 0 <= k < |order| - 1 :: Precedes(CodeUnits(order[k].name), CodeUnits(order[k + 1].name))
    ensures Precedes(CodeUnits(order[i].name), CodeUnits(order[j].name))
    decreases j
  {
    hide Precedes, CodeUnits;
    if i < j - 1 {
      PrecedesOver(order, i, j - 1);
      BelowPrecedes(CodeUnits(order[i].name), CodeUnits(order[j - 1].name));
      BelowPrecedes(CodeUnits(order[j - 1].name), CodeUnits(order[j].name));
      BelowPrecedes(CodeUnits(order[i].name), CodeUnits(order[j].name));
      hide Below;
      assert Precedes(CodeUnits(order[j - 1].name), CodeUnits(order[j - 1 + 1].name));
      BelowTransitive(CodeUnits(order[i].name), CodeUnits(order[j - 1].name), CodeUnits(order[j].name));
    }
  }

  lemma AdjacentAscends<T>(order: seq<Named<T>>)
    requires forall k | 0 <= k < |order| - 1 :: Precedes(CodeUnits(order[k].name), CodeUnits(order[k + 1].name))
    ensures Ascending(order)
  {
    hide Precedes, CodeUnits;
    forall i, j | 0 <= i < j < |order| ensures Precedes(CodeUnits(order[i].name), CodeUnits(order[j].name)) {
      PrecedesOver(order, i, j);
    }
  }

  lemma {:induction false} ListedIs(order: seq<Named<Value>>, members: seq<(string, Text)>)
    requires |order| == |members| && forall i | 0 <= i < |order| :: Admissible(order[i].value)
    requires forall i | 0 <= i < |order| ::
               Quoted(order[i].name) == Codes("\"" + members[i].0 + "\"") && Serialized(order[i].value) == members[i].1
    ensures MembersText(order) == Listed(members)
  {
    hide Quoted, Codes, Serialized, Admissible;
    if order != [] {
      ListedIs(order[1..], members[1..]);
    }
  }

  // ---- The two objects ----

  function ArtifactOrder(job: Job): (order: seq<Named<Value>>)
    ensures |order| == 7
  {
    [Named(Codes("file_id"), Str(job.fileId)), Named(Codes("mime_type"), Str(Codes("application/zip"))),
     Named(Codes("provider"), Str(ProviderName(job.provider))), Named(Codes("revision"), Str(job.revision)),
     Named(Codes("role"), Str(Codes("raw_package"))), Named(Codes("sha256"), Str(job.sha256)),
     Named(Codes("size_bytes"), Int(job.sizeBytes))]
  }

  lemma PlainBefore(a: string, b: string, k: nat)
    requires IsPlain(a) && IsPlain(b) && k < |a| && k < |b| && a[..k] == b[..k] && a[k] < b[k]
    ensures Precedes(CodeUnits(Codes(a)), CodeUnits(Codes(b)))
  {
    PlainPrecedes(a, b, k);
  }

  lemma PlainNames()
    ensures IsPlain("file_id") && IsPlain("mime_type") && IsPlain("provider") && IsPlain("revision")
    ensures IsPlain("role") && IsPlain("sha256") && IsPlain("size_bytes")
    ensures IsPlain("input_artifact") && IsPlain("job_id") && IsPlain("schema_version") && IsPlain("session_id")
  {
  }

  lemma PlainValues()
    ensures IsPlain("application/zip") && IsPlain("s3") && IsPlain("google_drive") && IsPlain("raw_package") && IsPlain("2.0")
  {
  }

  /** Names that differ in their first characters, or in their second ones. */
  lemma FirstDiffers(a: string, b: string)
    requires IsPlain(a) && IsPlain(b) && |a| > 1 && |b| > 1 && (a[0] < b[0] || (a[0] == b[0] && a[1] < b[1]))
    ensures Precedes(CodeUnits(Codes(a)), CodeUnits(Codes(b)))
  {
    hide IsPlain, Precedes, CodeUnits, Codes;
    if a[0] < b[0] {
      PlainBefore(a, b, 0);
    } else {
      assert a[..1] == [a[0]] && b[..1] == [b[0]];
      PlainBefore(a, b, 1);
    }
  }

  lemma ArtifactStep(job: Job, k: nat)
    requires k < 6
    ensures Precedes(CodeUnits(ArtifactOrder(job)[k].name), CodeUnits(ArtifactOrder(job)[k + 1].name))
  {
    PlainNames();
    hide IsPlain, Precedes, CodeUnits, Codes, ProviderName;
    match k
    case 0 => FirstDiffers("file_id", "mime_type");
    case 1 => FirstDiffers("mime_type", "provider");
    case 2 => FirstDiffers("provider", "revision");
    case 3 => FirstDiffers("revision", "role");
    case 4 => FirstDiffers("role", "sha256");
    case 5 => FirstDiffers("sha256", "size_bytes");
  }

  lemma ArtifactAscends(job: Job)
    ensures Ascending(ArtifactOrder(job))
  {
    hide *;
    forall k | 0 <= k < 6 ensures Precedes(CodeUnits(ArtifactOrder(job)[k].name), CodeUnits(ArtifactOrder(job)[k + 1].name)) {
      ArtifactStep(job, k);
    }
    AdjacentAscends(ArtifactOrder(job));
  }

  lemma ArtifactPermuted(job: Job)
    ensures ArtifactObject(job).Dict? && forall x :: x in ArtifactOrder(job) <==> x in ArtifactObject(job).entries
  {
    hide Codes, ProviderName;
    var order, entries := ArtifactOrder(job), ArtifactObject(job).entries;
    assert order[0] == entries[1] && order[1] == entries[5] && order[2] == entries[0] && order[3] == entries[2];
    assert order[4] == entries[6] && order[5] == entries[3] && order[6] == entries[4];
  }

  lemma PlainMember(name: string, value: string)
    requires IsPlain(name) && IsPlain(value)
    ensures Quoted(Codes(name)) == Codes("\"" + name + "\"")
    ensures Admissible(Str(Codes(value))) && Serialized(Str(Codes(value))) == Codes("\"" + value + "\"")
  {
    PlainString(name);
    PlainString(value);
    hide Quoted, Codes, IsPlain;
  }

  lemma TextMember(name: string, value: Text)
    requires IsPlain(name) && IsScalarText(value)
    ensures Quoted(Codes(name)) == Codes("\"" + name + "\"")
    ensures Admissible(Str(value)) && Serialized(Str(value)) == Quoted(value)
  {
    PlainString(name);
    hide Quoted, Codes, IsPlain;
  }

  lemma ArtifactEntry(job: Job, i: nat)
    requires i < 7 && IsAdmitted(job)
    ensures Admissible(ArtifactOrder(job)[i].value)
    ensures Quoted(ArtifactOrder(job)[i].name) == Codes("\"" + ArtifactMembers(job)[i].0 + "\"")
    ensures Serialized(ArtifactOrder(job)[i].value) == ArtifactMembers(job)[i].1
  {
    PlainNames();
    PlainValues();
    hide Quoted, Codes, ProviderName, IntText, IsPlain, IsScalarText;
    match i
    case 0 => TextMember("file_id", job.fileId);
    case 1 => PlainMember("mime_type", "application/zip");
      assert "\"" + "application/zip" + "\"" == "\"application/zip\"";
    case 2 => ProviderText(job); TextMember("provider", ProviderName(job.provider));
    case 3 => TextMember("revision", job.revision);
    case 4 => PlainMember("role", "raw_package");
      assert "\"" + "raw_package" + "\"" == "\"raw_package\"";
    case 5 => TextMember("sha256", job.sha256);
    case 6 => PlainString("size_bytes");
  }

  lemma ProviderText(job: Job)
    ensures IsScalarText(ProviderName(job.provider))
    ensures Quoted(ProviderName(job.provider)) == Codes(if job.provider.S3? then "\"s3\"" else "\"google_drive\"")
  {
    PlainString("s3");
    PlainString("google_drive");
    assert "\"" + "s3" + "\"" == "\"s3\"" && "\"" + "google_drive" + "\"" == "\"google_drive\"";
    hide Quoted, Codes, IsScalarText;
  }

  lemma ArtifactTextIs(job: Job)
    requires IsAdmitted(job)
    ensures Admissible(ArtifactObject(job)) && Serialized(ArtifactObject(job)) == ArtifactText(job)
  {
    ArtifactNamesDistinct(job);
    assert IsPythonValue(ArtifactObject(job)) by { hide Codes, ProviderName; }
    ArtifactAdmissible(job);
    ArtifactPermuted(job);
    assert ArtifactText(job) == Codes("{") + Listed(ArtifactMembers(job)) + Codes("}");
    hide *;
    ArtifactAscends(job);
    forall i | 0 <= i < 7
      ensures Admissible(ArtifactOrder(job)[i].value)
      ensures Quoted(ArtifactOrder(job)[i].name) == Codes("\"" + ArtifactMembers(job)[i].0 + "\"")
      ensures Serialized(ArtifactOrder(job)[i].value) == ArtifactMembers(job)[i].1 {
      ArtifactEntry(job, i);
    }
    ListedIs(ArtifactOrder(job), ArtifactMembers(job));
    var entries := ArtifactObject(job).entries;
    TextOfAscending(entries, ArtifactOrder(job));
  }

  function JobOrder(job: Job): (order: seq<Named<Value>>)
    ensures |order| == 4
  {
    [Named(Codes("input_artifact"), ArtifactObject(job)), Named(Codes("job_id"), Str(job.jobId)),
     Named(Codes("schema_version"), Str(Codes("2.0"))), Named(Codes("session_id"), Str(job.sessionId))]
  }

  lemma JobAscends(job: Job)
    ensures Ascending(JobOrder(job))
  {
    PlainNames();
    hide IsPlain, Precedes, CodeUnits, Codes, ArtifactObject, Ascending;
    FirstDiffers("input_artifact", "job_id");
    FirstDiffers("job_id", "schema_version");
    FirstDiffers("schema_version", "session_id");
    AdjacentAscends(JobOrder(job));
  }

  lemma JobPermuted(job: Job)
    ensures SemanticObject(job).Dict? && forall x :: x in JobOrder(job) <==> x in SemanticObject(job).entries
  {
    hide Codes, ArtifactObject;
    var order, entries := JobOrder(job), SemanticObject(job).entries;
    assert order[0] == entries[3] && order[1] == entries[1] && order[2] == entries[0] && order[3] == entries[2];
  }

  lemma JobEntry(job: Job, i: nat)
    requires i < 4 && IsAdmitted(job)
    ensures Admissible(JobOrder(job)[i].value)
    ensures Quoted(JobOrder(job)[i].name) == Codes("\"" + JobMembers(job)[i].0 + "\"")
    ensures Serialized(JobOrder(job)[i].value) == JobMembers(job)[i].1
  {
    PlainNames();
    PlainValues();
    hide Quoted, Codes, ArtifactObject, ArtifactText, IsPlain, IsScalarText;
    match i
    case 0 => PlainString("input_artifact"); ArtifactTextIs(job);
    case 1 => TextMember("job_id", job.jobId);
    case 2 => PlainMember("schema_version", "2.0");
      assert "\"" + "2.0" + "\"" == "\"2.0\"";
    case 3 => TextMember("session_id", job.sessionId);
  }

  lemma JobJsonIs(job: Job)
    requires IsAdmitted(job) && Admissible(SemanticObject(job))
    ensures Serialized(SemanticObject(job)) == JobJson(job)
  {
    SemanticObjectIsPython(job);
    JobPermuted(job);
    assert JobJson(job) == Codes("{") + Listed(JobMembers(job)) + Codes("}");
    hide *;
    JobAscends(job);
    forall i | 0 <= i < 4
      ensures Admissible(JobOrder(job)[i].value)
      ensures Quoted(JobOrder(job)[i].name) == Codes("\"" + JobMembers(job)[i].0 + "\"")
      ensures Serialized(JobOrder(job)[i].value) == JobMembers(job)[i].1 {
      JobEntry(job, i);
    }
    ListedIs(JobOrder(job), JobMembers(job));
    var entries := SemanticObject(job).entries;
    TextOfAscending(entries, JobOrder(job));
  }

  /** The digest covers exactly this text, in this order, whatever the job. */
  lemma JobTextIs(job: Job)
    requires IsAdmitted(job)
    ensures Preimage(job)
         == Codes("workflow-helper\0processing-job-v2\0payload-digest\0sha256-jcs-v1\0") + Utf8(JobJson(job))
  {
    SemanticObjectAdmissible(job);
    JobJsonIs(job);
    hide JobJson, SemanticObject, Serialized, Codes, Utf8;
  }

  /** One text of each encoded length. */
  lemma Utf8Vectors()
    ensures Utf8([0x41, 0xE9, 0x20AC, 0x1_F600]) == [0x41, 0xC3, 0xA9, 0xE2, 0x82, 0xAC, 0xF0, 0x9F, 0x98, 0x80]
  {
    var t: Text := [0x41, 0xE9, 0x20AC, 0x1_F600];
    assert t[1..] == [0xE9, 0x20AC, 0x1_F600] && t[1..][1..] == [0x20AC, 0x1_F600] && t[1..][1..][1..] == [0x1_F600];
    assert t[1..][1..][1..][1..] == [];
    assert Utf8([0x1_F600]) == [0xF0, 0x9F, 0x98, 0x80];
    assert Utf8([0x20AC, 0x1_F600]) == [0xE2, 0x82, 0xAC] + [0xF0, 0x9F, 0x98, 0x80];
    assert Utf8([0xE9, 0x20AC, 0x1_F600]) == [0xC3, 0xA9] + ([0xE2, 0x82, 0xAC] + [0xF0, 0x9F, 0x98, 0x80]);
  }
}
