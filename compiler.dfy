/** kts/GlaiCompiler: compile a script, write the cache record when asked
    to, then hand the compiled script to the continuation. */
module Compiler {
  import opened Kotlin
  import opened Diagnostics
  import opened Serialization
  import opened ScriptFile
  import opened KotlinScript
  import ScriptIO

  /** The digest array: the source file's digest, then the property digest. */
  datatype Digests = Digests(source: string, properties: string)

  /** The scripting host's compiler applied to a source file under
      GlaiCompilationConfiguration(props). */
  type ScriptCompiler = (File, RuntimeProperty) -> Result<CompiledScript>

  /** `"$k: ${v.javaClass.name}"` for one provided property. */
  function Entry(p: (string, Value)): string
  {
    p.0 + ": " + p.1.className
  }

  /** The property description stored in the record: the entries joined
      with ", ". */
  function Description(props: seq<(string, Value)>): string
  {
    Join(Map(props, Entry), ", ")
  }

  /** No properties give the empty description, and any property gives a
      non-empty one. */
  lemma DescriptionEmpty(props: seq<(string, Value)>)
    ensures Description(props) == "" <==> props == []
  {
    if props != [] {
      JoinHead(Map(props, Entry), ", ");
    }
  }

  /** A joined list starts with its first part. */
  lemma JoinHead(parts: seq<string>, separator: string)
    requires parts != []
    ensures |Join(parts, separator)| >= |parts[0]| && Join(parts, separator)[..|parts[0]|] == parts[0]
  {
  }

  /** One property is described as "key: className". */
  lemma DescriptionSingle(p: (string, Value))
    ensures Description([p]) == p.0 + ": " + p.1.className
  {
  }

  /** Each further property adds ", " and its own entry after the first. */
  lemma DescriptionCons(p: (string, Value), rest: seq<(string, Value)>)
    requires rest != []
    ensures Description([p] + rest) == Entry(p) + ", " + Description(rest)
  {
    assert Map([p] + rest, Entry) == [Entry(p)] + Map(rest, Entry);
    JoinCons(Entry(p), Map(rest, Entry), ", ");
  }

  /** The record compile writes: Int 4, both digests, the property count as
      primitive data, the description, and the compiled script. */
  function KtsRecord(digest: Digests, props: RuntimeProperty, compiled: CompiledScript): seq<Field>
  {
    [ IntField(4),
      ObjField(Str(digest.source)),
      ObjField(Str(digest.properties)),
      IntField(|props.providedProperties|),
      ObjField(Str(Description(props.providedProperties))),
      ObjField(Blob(compiled)) ]
  }

  /** The files after compile: the record is stored only when compilation
      succeeded and a compiled file was given. */
  function AfterCompile(files: map<File, seq<Field>>, result: Result<CompiledScript>, compiledFile: Option<File>,
                        digest: Digests, props: RuntimeProperty): (after: map<File, seq<Field>>)
    ensures result.Failure? || compiledFile.None? ==> after == files
    ensures result.Success? && compiledFile.Some? ==>
      after.Keys == files.Keys + {compiledFile.value} &&
      after[compiledFile.value] == KtsRecord(digest, props, result.value) &&
      forall f :: f in files && f != compiledFile.value ==> after[f] == files[f]
  {
    if result.Success? && compiledFile.Some? then files[compiledFile.value := KtsRecord(digest, props, result.value)]
    else files
  }

  /** GlaiScriptFile.loadFromFile cannot read what compile writes: the count
      4 makes it read four objects, and the fourth item is the property count
      written as primitive data, where readObject raises
      OptionalDataException. */
  lemma RecordUnreadable(f: File, digest: Digests, props: RuntimeProperty, compiled: CompiledScript)
    ensures LoadSpec(f, KtsRecord(digest, props, compiled)) == Throw(OptionalData)
  {
    var data := KtsRecord(digest, props, compiled);
    assert ReadObjects(data, 3, 2) == Throw(OptionalData);
    assert ReadObjects(data, 2, 3) == Throw(OptionalData);
  }

  /** With the count written as an object instead, the header would hold
      only four objects, `compileArgs[3] as Int` would see the description,
      and the load would still fail, with a ClassCastException. */
  lemma BoxedCountStillUnreadable(f: File, digest: Digests, props: RuntimeProperty, compiled: CompiledScript)
    ensures var data := KtsRecord(digest, props, compiled)[3 := ObjField(Boxed(|props.providedProperties|))];
      LoadSpec(f, data) == Throw(ClassCast)
  {
    var data := KtsRecord(digest, props, compiled)[3 := ObjField(Boxed(|props.providedProperties|))];
    ReadObjectsIff(data, 1, 4);
  }

  /** The default digest array: the SHA-1 of the source file and the
      property digest. Computing it reads the source file. */
  method DefaultDigests(content: seq<ScriptIO.byte>, granule: nat, sha1: ScriptIO.HashFunction, props: RuntimeProperty)
      returns (d: Digests)
    requires granule >= 1
    ensures d == Digests(ScriptIO.DigestHex(sha1, content), props.digest)
  {
    var hex, _ := ScriptIO.FileDigest(content, granule, sha1);
    d := Digests(hex, props.digest);
  }

  /** GlaiCompiler.compile. On success the record is first assembled in a
      memory buffer and stored with a single writeBytes when a compiled file
      is given; then onSuccess runs and its result, behind the compiler's
      reports, is returned. `invoked` is the script onSuccess was called
      with; the caller performs the continuation's side effects. */
  method Compile(fs: FileSystem, props: RuntimeProperty, sourceFile: File, compiledFile: Option<File>,
                 digest: Digests, compiler: ScriptCompiler, onSuccess: CompiledScript -> Result<EvaluationResult>)
      returns (r: Result<EvaluationResult>, invoked: Option<CompiledScript>)
    modifies fs
    ensures r == OnSuccess(compiler(sourceFile, props), onSuccess)
    ensures invoked.Some? <==> compiler(sourceFile, props).Success?
    ensures invoked.Some? ==> invoked.value == compiler(sourceFile, props).value
    ensures fs.files == AfterCompile(old(fs.files), compiler(sourceFile, props), compiledFile, digest, props)
    ensures fs.writes == old(fs.writes) + (if invoked.Some? && compiledFile.Some? then 1 else 0)
  {
    var result := compiler(sourceFile, props);
    if result.Failure? {
      return Failure(result.reports), None;
    }
    var it := result.value;
    if compiledFile.Some? {
      var out := new ObjectOutputStream();
      out.WriteInt(4);
      out.WriteObject(Str(digest.source));
      out.WriteObject(Str(digest.properties));
      out.WriteInt(|props.providedProperties|);
      out.WriteObject(Str(Description(props.providedProperties)));
      out.WriteObject(Blob(it));
      assert out.written == KtsRecord(digest, props, it);
      fs.WriteBytes(compiledFile.value, out.written);
    }
    r := Prepend(result.reports, onSuccess(it));
    invoked := Some(it);
  }
}
