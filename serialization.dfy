/** Java object serialisation as the cache files use it. What an
    ObjectOutputStream produces is modelled as the sequence of items written:
    primitive block data from writeInt, or an object from writeObject. The
    byte encoding itself is not modelled. */
module Serialization {
  import opened Kotlin

  /** A kotlin.script.experimental.api.CompiledScript; `text` is its
      toString(). Its contents are not modelled. */
  datatype CompiledScript = CompiledScript(text: string)

  /** The objects a cache file holds: strings, boxed integers, compiled
      scripts, or null. */
  datatype Obj = Str(s: string) | Boxed(i: int) | Blob(script: CompiledScript) | Null

  /** One item of a serialised stream. */
  datatype Field = IntField(v: int) | ObjField(o: Obj)

  /** The exceptions the reading code can raise. */
  datatype Failure =
    | EndOfStream        // java.io.EOFException
    | OptionalData       // java.io.OptionalDataException: block data where an object was expected
    | ClassCast          // ClassCastException from `as T`
    | NullCast           // NullPointerException from casting null to a non-null type
    | IndexOutOfBounds   // ArrayIndexOutOfBoundsException
    | FileNotFound       // java.io.FileNotFoundException from readBytes()

  /** A value, or the exception that was thrown instead. */
  datatype Try<T> = Ok(value: T) | Throw(error: Failure)

  /** Object.toString() of a deserialised object. */
  function ToStr(o: Obj): (t: string)
    ensures o.Str? ==> t == o.s
    ensures o.Blob? ==> t == o.script.text
    ensures o.Null? ==> t == "null"
  {
    match o
    case Str(s) => s
    case Boxed(i) => IntToString(i)
    case Blob(c) => c.text
    case Null => "null"
  }

  /** Integer.toString(i): decimal digits, with a '-' when negative. */
  function IntToString(i: int): (t: string)
    ensures |t| >= 1
    ensures i >= 0 ==> t[0] != '-'
    ensures i < 0 ==> t[0] == '-'
  {
    if i >= 0 then Decimal(i) else "-" + Decimal(-i)
  }

  function Decimal(n: nat): (t: string)
    ensures |t| >= 1 && '0' <= t[0] <= '9'
    ensures forall k :: 0 <= k < |t| ==> '0' <= t[k] <= '9'
    decreases n
  {
    if n < 10 then [DecimalDigit(n)] else Decimal(n / 10) + [DecimalDigit(n % 10)]
  }

  function DecimalDigit(k: nat): (c: char)
    requires k < 10
    ensures '0' <= c <= '9' && c as int - '0' as int == k
  {
    ('0' as int + k) as char
  }

  /** The value of a string of decimal digits. */
  function DecimalValue(t: string): int
  {
    if t == [] then 0 else DecimalValue(t[..|t| - 1]) * 10 + (t[|t| - 1] as int - '0' as int)
  }

  /** Reading the decimal rendering back gives the number. */
  lemma {:induction false} DecimalRoundTrip(n: nat)
    ensures DecimalValue(Decimal(n)) == n
    decreases n
  {
    if n >= 10 {
      var t := Decimal(n / 10);
      DecimalRoundTrip(n / 10);
      assert (t + [DecimalDigit(n % 10)])[..|t|] == t;
    }
  }

  /** Two boxed integers render alike only when they are equal. */
  lemma IntToStringInjective(i: int, j: int)
    requires IntToString(i) == IntToString(j)
    ensures i == j
  {
    if i >= 0 && j >= 0 {
      DecimalRoundTrip(i);
      DecimalRoundTrip(j);
    } else if i < 0 && j < 0 {
      assert Decimal(-i) == IntToString(i)[1..];
      assert Decimal(-j) == IntToString(j)[1..];
      DecimalRoundTrip(-i);
      DecimalRoundTrip(-j);
    }
  }

  // ----------------------------------------------------------- reading

  /** readInt() at position pos: block data is read, anything else or the
      end of the stream raises EOFException. */
  function ReadIntAt(data: seq<Field>, pos: nat): (r: Try<int>)
    ensures r.Ok? <==> pos < |data| && data[pos].IntField?
    ensures r.Ok? ==> data[pos] == IntField(r.value)
    ensures r.Throw? ==> r.error == EndOfStream
  {
    if pos >= |data| then Throw(EndOfStream)
    else match data[pos]
      case IntField(v) => Ok(v)
      case ObjField(_) => Throw(EndOfStream)
  }

  /** readObject() at position pos: an object is read; block data raises
      OptionalDataException and the end of the stream EOFException. */
  function ReadObjectAt(data: seq<Field>, pos: nat): (r: Try<Obj>)
    ensures r.Ok? <==> pos < |data| && data[pos].ObjField?
    ensures r.Ok? ==> data[pos] == ObjField(r.value)
    ensures r.Throw? && pos < |data| ==> r.error == OptionalData
    ensures pos >= |data| ==> r == Throw(EndOfStream)
  {
    if pos >= |data| then Throw(EndOfStream)
    else match data[pos]
      case IntField(_) => Throw(OptionalData)
      case ObjField(o) => Ok(o)
  }

  /** `readObject() as Any`: null is refused. */
  function AsAny(r: Try<Obj>): (a: Try<Obj>)
    ensures a.Ok? <==> r.Ok? && !r.value.Null?
    ensures a.Ok? ==> a == r
    ensures r.Ok? && r.value.Null? ==> a == Throw(NullCast)
    ensures r.Throw? ==> a == r
  {
    if r.Ok? && r.value.Null? then Throw(NullCast) else r
  }

  /** `readObject() as String`. */
  function AsString(r: Try<Obj>): (a: Try<string>)
    ensures a.Ok? <==> r.Ok? && r.value.Str?
    ensures a.Ok? ==> a.value == r.value.s
    ensures r.Throw? ==> a == Throw(r.error)
  {
    match r
    case Throw(e) => Throw(e)
    case Ok(o) => if o.Str? then Ok(o.s) else if o.Null? then Throw(NullCast) else Throw(ClassCast)
  }

  /** `readObject() as CompiledScript`. */
  function AsCompiledScript(r: Try<Obj>): (a: Try<CompiledScript>)
    ensures a.Ok? <==> r.Ok? && r.value.Blob?
    ensures a.Ok? ==> a.value == r.value.script
    ensures r.Throw? ==> a == Throw(r.error)
  {
    match r
    case Throw(e) => Throw(e)
    case Ok(o) => if o.Blob? then Ok(o.script) else if o.Null? then Throw(NullCast) else Throw(ClassCast)
  }

  /** What writeInt/writeObject produce is what readInt/readObject return. */
  lemma WriteThenRead(before: seq<Field>, after: seq<Field>, v: int, o: Obj)
    ensures ReadIntAt(before + [IntField(v)] + after, |before|) == Ok(v)
    ensures ReadObjectAt(before + [ObjField(o)] + after, |before|) == Ok(o)
    ensures ReadObjectAt(before + [IntField(v)] + after, |before|) == Throw(OptionalData)
  {
    assert (before + [IntField(v)] + after)[|before|] == IntField(v);
    assert (before + [ObjField(o)] + after)[|before|] == ObjField(o);
  }

  /** A java.io.ObjectOutputStream over a ByteArrayOutputStream: the items
      written so far, in order. */
  class ObjectOutputStream {
    var written: seq<Field>

    constructor ()
      ensures written == []
    {
      written := [];
    }

    method WriteInt(v: int)
      modifies this
      ensures written == old(written) + [IntField(v)]
    {
      written := written + [IntField(v)];
    }

    method WriteObject(o: Obj)
      modifies this
      ensures written == old(written) + [ObjField(o)]
    {
      written := written + [ObjField(o)];
    }
  }

  /** A java.io.ObjectInputStream over a ByteArrayInputStream: the items of
      the file and how many have been consumed. */
  class ObjectInputStream {
    const data: seq<Field>
    var pos: nat

    ghost predicate Valid()
      reads this
    {
      pos <= |data|
    }

    constructor (data: seq<Field>)
      ensures Valid() && this.data == data && pos == 0
    {
      this.data := data;
      pos := 0;
    }

    method ReadInt() returns (r: Try<int>)
      requires Valid()
      modifies this
      ensures Valid()
      ensures r == ReadIntAt(data, old(pos))
      ensures pos == old(pos) + (if r.Ok? then 1 else 0)
    {
      r := ReadIntAt(data, pos);
      if r.Ok? {
        pos := pos + 1;
      }
    }

    method ReadObject() returns (r: Try<Obj>)
      requires Valid()
      modifies this
      ensures Valid()
      ensures r == ReadObjectAt(data, old(pos))
      ensures pos == old(pos) + (if r.Ok? then 1 else 0)
    {
      r := ReadObjectAt(data, pos);
      if r.Ok? {
        pos := pos + 1;
      }
    }
  }

  /** The files the cache is kept in, each holding one serialised stream.
      `writes` counts File.writeBytes calls. */
  class FileSystem {
    var files: map<File, seq<Field>>
    var writes: nat

    constructor (files: map<File, seq<Field>>)
      ensures this.files == files && writes == 0
    {
      this.files := files;
      writes := 0;
    }

    /** File.exists(). */
    predicate Exists(f: File)
      reads this
    {
      f in files
    }

    /** File.readBytes(). */
    function ReadBytes(f: File): (r: Try<seq<Field>>)
      reads this
      ensures r.Ok? <==> f in files
      ensures r.Ok? ==> r.value == files[f]
      ensures r.Throw? ==> r.error == FileNotFound
    {
      if f in files then Ok(files[f]) else Throw(FileNotFound)
    }

    /** File.writeBytes(content): the file is created or replaced. */
    method WriteBytes(f: File, content: seq<Field>)
      modifies this
      ensures files == old(files)[f := content]
      ensures writes == old(writes) + 1
    {
      files := files[f := content];
      writes := writes + 1;
    }
  }
}
