/** GlaiScriptFile: a compiled script loaded from a `.kit` cache file,
    with the header objects stored in front of it. */
module ScriptFile {
  import opened Kotlin
  import opened Serialization

  /** A loaded cache file. `digest` holds the content digest and the
      property digest, in that order. */
  datatype GlaiScriptFile = GlaiScriptFile(
    sourceFile: File, digest: seq<string>, propsSize: int, propsDescription: string, compiled: CompiledScript)

  /** The GlaiScriptFile constructor: the projections of the header array
      are computed in declaration order, each access raising
      IndexOutOfBounds when the array is too short and the `as Int` cast
      raising ClassCast when the object there is not an Int. */
  function NewScriptFile(sourceFile: File, compileArgs: seq<Obj>, compiled: CompiledScript): (r: Try<GlaiScriptFile>)
    ensures r.Ok? <==> |compileArgs| >= 5 && compileArgs[3].Boxed?
    ensures r.Ok? ==> r.value == GlaiScriptFile(sourceFile,
      [ToStr(compileArgs[0]), ToStr(compileArgs[1])], compileArgs[3].i, ToStr(compileArgs[4]), compiled)
    ensures |compileArgs| < 4 ==> r == Throw(IndexOutOfBounds)
    ensures |compileArgs| >= 4 && !compileArgs[3].Boxed? ==> r == Throw(ClassCast)
    ensures |compileArgs| == 4 && compileArgs[3].Boxed? ==> r == Throw(IndexOutOfBounds)
  {
    if |compileArgs| < 2 then Throw(IndexOutOfBounds)
    else
      var digest := [ToStr(compileArgs[0]), ToStr(compileArgs[1])];
      if |compileArgs| < 4 then Throw(IndexOutOfBounds)
      else if !compileArgs[3].Boxed? then Throw(ClassCast)
      else if |compileArgs| < 5 then Throw(IndexOutOfBounds)
      else Ok(GlaiScriptFile(sourceFile, digest, compileArgs[3].i, ToStr(compileArgs[4]), compiled))
  }

  /** `list + result`: the objects read so far in front of the rest. */
  function PrependObjects(read: seq<Obj>, rest: Try<seq<Obj>>): Try<seq<Obj>>
  {
    if rest.Ok? then Ok(read + rest.value) else rest
  }

  /** `(1..count).map { readObject() as Any }` starting at position pos. */
  function ReadObjects(data: seq<Field>, pos: nat, count: nat): (r: Try<seq<Obj>>)
    ensures r.Ok? ==> |r.value| == count
    decreases count
  {
    if count == 0 then Ok([])
    else
      var o := AsAny(ReadObjectAt(data, pos));
      if o.Throw? then Throw(o.error)
      else PrependObjects([o.value], ReadObjects(data, pos + 1, count - 1))
  }

  /** The header objects are read exactly when the next `count` items are
      all non-null objects, and they are those objects. */
  lemma {:induction false} ReadObjectsIff(data: seq<Field>, pos: nat, count: nat)
    ensures ReadObjects(data, pos, count).Ok? <==>
      (count == 0 || pos + count <= |data|) &&
      forall k :: pos <= k < pos + count ==> data[k].ObjField? && !data[k].o.Null?
    ensures ReadObjects(data, pos, count).Ok? ==>
      forall k :: 0 <= k < count ==> ReadObjects(data, pos, count).value[k] == data[pos + k].o
    decreases count
  {
    if count > 0 {
      ReadObjectsIff(data, pos + 1, count - 1);
      var items := (count == 0 || pos + count <= |data|) &&
        forall k :: pos <= k < pos + count ==> data[k].ObjField? && !data[k].o.Null?;
      if items {
        assert data[pos].ObjField? && !data[pos].o.Null?;
        assert AsAny(ReadObjectAt(data, pos)) == Ok(data[pos].o);
        assert ReadObjects(data, pos + 1, count - 1).Ok?;
        assert ReadObjects(data, pos, count).Ok?;
      }
      if ReadObjects(data, pos, count).Ok? {
        assert AsAny(ReadObjectAt(data, pos)).Ok?;
        assert ReadObjects(data, pos + 1, count - 1).Ok?;
        assert items;
        var rest := ReadObjects(data, pos + 1, count - 1).value;
        var all := ReadObjects(data, pos, count).value;
        assert all == [data[pos].o] + rest;
        forall k | 0 <= k < count
          ensures all[k] == data[pos + k].o
        {
          if k > 0 { assert all[k] == rest[k - 1]; }
        }
      }
    }
  }

  /** GlaiScriptFile.loadFromFile on a file holding `data`: one Int n, then
      n objects (none when n < 1), then the compiled script. */
  function LoadSpec(sourceFile: File, data: seq<Field>): Try<GlaiScriptFile>
  {
    var n := ReadIntAt(data, 0);
    if n.Throw? then Throw(n.error)
    else
      var count: nat := if n.value < 1 then 0 else n.value;
      var args := ReadObjects(data, 1, count);
      if args.Throw? then Throw(args.error)
      else
        var compiled := AsCompiledScript(ReadObjectAt(data, 1 + count));
        if compiled.Throw? then Throw(compiled.error)
        else NewScriptFile(sourceFile, args.value, compiled.value)
  }

  /** The layouts loadFromFile accepts: a count n of at least 5, then n
      non-null objects of which the fourth is an Int, then a compiled script.
      Nothing else in the header is checked, and items after the compiled
      script are ignored. */
  predicate WellFormed(data: seq<Field>)
  {
    && |data| >= 1 && data[0].IntField?
    && var n := data[0].v;
    && n >= 5 && |data| >= n + 2
    && (forall k :: 1 <= k <= n ==> data[k].ObjField? && !data[k].o.Null?)
    && data[4].o.Boxed?
    && data[n + 1].ObjField? && data[n + 1].o.Blob?
  }

  /** Loading succeeds exactly on well-formed data, and then yields the two
      digests, the property count and description from header positions
      1, 2, 4 and 5, the compiled script after the header, and the file
      itself as sourceFile. */
  lemma LoadSpecIff(sourceFile: File, data: seq<Field>)
    ensures LoadSpec(sourceFile, data).Ok? <==> WellFormed(data)
    ensures WellFormed(data) ==> LoadSpec(sourceFile, data).value == GlaiScriptFile(
      sourceFile, [ToStr(data[1].o), ToStr(data[2].o)], data[4].o.i, ToStr(data[5].o), data[data[0].v + 1].o.script)
  {
    if |data| >= 1 && data[0].IntField? {
      var n := data[0].v;
      var count: nat := if n < 1 then 0 else n;
      ReadObjectsIff(data, 1, count);
    }
  }

  /** The leading Int is only a count: any count of five or more is read,
      with no version or other field checked first. */
  lemma AnyCountAccepted(sourceFile: File, header: seq<Obj>, script: CompiledScript)
    requires |header| >= 5 && header[3].Boxed?
    requires forall k :: 0 <= k < |header| ==> !header[k].Null?
    ensures LoadSpec(sourceFile, [IntField(|header|)] + Objects(header) + [ObjField(Blob(script))]).Ok?
  {
    var data := [IntField(|header|)] + Objects(header) + [ObjField(Blob(script))];
    assert forall k :: 1 <= k <= |header| ==> data[k] == ObjField(header[k - 1]);
    LoadSpecIff(sourceFile, data);
  }

  /** writeObject of each object in turn. */
  function Objects(os: seq<Obj>): (fs: seq<Field>)
    ensures |fs| == |os|
    ensures forall k :: 0 <= k < |os| ==> fs[k] == ObjField(os[k])
  {
    if os == [] then [] else [ObjField(os[0])] + Objects(os[1..])
  }

  /** GlaiScriptFile.loadFromFile(sourceFile). */
  method LoadFromFile(fs: FileSystem, sourceFile: File) returns (r: Try<GlaiScriptFile>)
    ensures sourceFile !in fs.files ==> r == Throw(FileNotFound)
    ensures sourceFile in fs.files ==> r == LoadSpec(sourceFile, fs.files[sourceFile])
  {
    var bytes := fs.ReadBytes(sourceFile);
    if bytes.Throw? {
      return Throw(bytes.error);
    }
    var input := new ObjectInputStream(bytes.value);
    var n := input.ReadInt();
    if n.Throw? {
      return Throw(n.error);
    }
    var count: nat := if n.value < 1 then 0 else n.value;
    var compileArgs: seq<Obj> := [];
    var i := 0;
    assert ReadObjects(input.data, 1, count).Ok? ==>
      [] + ReadObjects(input.data, 1, count).value == ReadObjects(input.data, 1, count).value;
    while i < count
      invariant 0 <= i <= count && input.Valid() && input.data == bytes.value
      invariant input.pos == 1 + i && |compileArgs| == i
      invariant ReadObjects(input.data, 1, count) == PrependObjects(compileArgs, ReadObjects(input.data, 1 + i, count - i))
      decreases count - i
    {
      var o := input.ReadObject();
      if o.Throw? {
        return Throw(o.error);
      }
      if o.value.Null? {
        return Throw(NullCast);
      }
      ghost var rest := ReadObjects(input.data, 2 + i, count - i - 1);
      assert rest.Ok? ==> compileArgs + ([o.value] + rest.value) == (compileArgs + [o.value]) + rest.value;
      compileArgs := compileArgs + [o.value];
      i := i + 1;
    }
    var compiled := input.ReadObject();
    var script := AsCompiledScript(compiled);
    if script.Throw? {
      return Throw(script.error);
    }
    r := NewScriptFile(sourceFile, compileArgs, script.value);
  }
}
