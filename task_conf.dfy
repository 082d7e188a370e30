/** Task configuration (TaskConf.java): a property list of string pairs,
    carried between processes as a length-prefixed blob, a 4-byte
    big-endian length followed by the property list's own bytes.
    The property list's byte format belongs to StringPropertyListImpl,
    which is not part of this model: each list carries the encoder and
    decoder of that format as opaque functions, and the framing around
    their bytes is what is modelled and proved. */
module TaskConfiguration {
  import opened Jvm
  import opened DataStreams

  /** The property list's own byte format, as a pair of functions. */
  datatype PropertyCodec = PropertyCodec(
    encode: map<string, string> -> seq<Byte>,
    decode: seq<Byte> -> map<string, string>)

  /** The frame `getBytes` writes around a payload. */
  function Frame(payload: seq<Byte>): (r: seq<Byte>)
    requires |payload| <= INT_MAX
    ensures |r| == 4 + |payload| && r[4..] == payload
  {
    Int32Bytes(|payload|) + payload
  }

  /** What `fromBytes` reads out of `bytes`: the payload that is handed on
      to the property list, or the exception that stops it. Fewer than
      four bytes, or fewer than the declared length after them, is an
      EOFException wrapped in a SerializationException; a negative declared
      length fails when the buffer is allocated, which is not caught. Bytes
      after the payload are ignored. */
  function Unframe(bytes: seq<Byte>): (r: Result<seq<Byte>>)
    ensures r.Ok? ==> |bytes| >= 4 + |r.value| && |r.value| == Int32Of(bytes[..4]) && r.value == bytes[4..4 + |r.value|]
    ensures r.Throws? ==> r.error == SerializationException(EOFException) || r.error == NegativeArraySizeException
  {
    if |bytes| < 4 then Throws(SerializationException(EOFException))
    else
      var len := Int32Of(bytes[..4]);
      if len < 0 then Throws(NegativeArraySizeException)
      else if |bytes| < 4 + len then Throws(SerializationException(EOFException))
      else Ok(bytes[4..4 + len])
  }

  /** The frame is exactly four bytes longer than the payload, and starts
      with the payload's length. */
  lemma FrameLayout(payload: seq<Byte>)
    requires |payload| <= INT_MAX
    ensures |Frame(payload)| == 4 + |payload|
    ensures Int32Of(Frame(payload)[..4]) == |payload|
    ensures Frame(payload)[4..] == payload
  {
    Int32RoundTrip(|payload|, [0, 0, 0, 0]);
    assert Frame(payload)[..4] == Int32Bytes(|payload|);
  }

  /** Round trip: reading a frame back, even with bytes after it, delivers
      exactly the payload that was framed. */
  lemma UnframeFrame(payload: seq<Byte>, trailing: seq<Byte>)
    requires |payload| <= INT_MAX
    ensures Unframe(Frame(payload) + trailing) == Ok(payload)
  {
    FrameLayout(payload);
    var bytes := Frame(payload) + trailing;
    assert bytes[..4] == Frame(payload)[..4];
    assert bytes[4..4 + |payload|] == payload;
  }

  /** A frame that `Unframe` accepts is the frame of its payload followed by
      the ignored bytes: every accepted input comes from `Frame`. */
  lemma UnframeOnlyFrames(bytes: seq<Byte>)
    requires Unframe(bytes).Ok?
    ensures |Unframe(bytes).value| <= INT_MAX
    ensures bytes == Frame(Unframe(bytes).value) + bytes[4 + |Unframe(bytes).value|..]
  {
    var payload := Unframe(bytes).value;
    Int32RoundTrip(|payload|, bytes[..4]);
    assert bytes == bytes[..4] + payload + bytes[4 + |payload|..];
  }

  /** The property list (StringPropertyListImpl): string pairs, their byte
      form given by `codec`. */
  class StringPropertyList {
    const codec: PropertyCodec
    var entries: map<string, string>

    constructor (codec: PropertyCodec)
      ensures this.codec == codec && entries == map[]
    {
      this.codec := codec;
      entries := map[];
    }

    method AddProperty(key: string, val: string)
      modifies this
      ensures entries == old(entries)[key := val]
    {
      entries := entries[key := val];
    }

    /** The value stored under `key`, or None for Java's null. */
    function GetPropertyValue(key: string): (r: Option<string>)
      reads this
      ensures r.Some? <==> key in entries
      ensures r.Some? ==> r.value == entries[key]
    {
      if key in entries then Some(entries[key]) else None
    }

    method GetBytes() returns (data: seq<Byte>)
      ensures data == codec.encode(entries)
    {
      data := codec.encode(entries);
    }

    method FromBytes(data: seq<Byte>)
      modifies this
      ensures entries == codec.decode(data)
    {
      entries := codec.decode(data);
    }
  }

  class TaskConf {
    const propertyList: StringPropertyList

    /** `TaskConf()`: a fresh, empty property list. */
    constructor (codec: PropertyCodec)
      ensures fresh(propertyList)
      ensures propertyList.codec == codec && propertyList.entries == map[]
    {
      propertyList := new StringPropertyList(codec);
    }

    /** `TaskConf(byte[])`: `TaskConf()` followed by `fromBytes`; the Java
        constructor throws when `fromBytes` does. */
    static method OfBytes(codec: PropertyCodec, bytes: seq<Byte>) returns (r: Result<TaskConf>)
      ensures r.Throws? <==> Unframe(bytes).Throws?
      ensures r.Throws? ==> r.error == Unframe(bytes).error
      ensures r.Ok? ==> fresh(r.value) && fresh(r.value.propertyList)
      ensures r.Ok? ==> r.value.propertyList.codec == codec
      ensures r.Ok? ==> r.value.propertyList.entries == codec.decode(Unframe(bytes).value)
    {
      var conf := new TaskConf(codec);
      var o := conf.FromBytes(bytes);
      if o.Raised? {
        return Throws(o.error);
      }
      r := Ok(conf);
    }

    /** `addProperty`: passed on unchanged to the property list. */
    method AddProperty(key: string, val: string)
      modifies propertyList
      ensures propertyList.entries == old(propertyList.entries)[key := val]
    {
      propertyList.AddProperty(key, val);
    }

    /** `getProperty`: passed on unchanged to the property list. */
    function GetProperty(key: string): (r: Option<string>)
      reads propertyList
      ensures r == propertyList.GetPropertyValue(key)
      ensures r.Some? <==> key in propertyList.entries
    {
      propertyList.GetPropertyValue(key)
    }

    /** `fromBytes`: read the length, then that many bytes, and hand them to
        the property list. On failure the property list is left as it was. */
    method FromBytes(bytes: seq<Byte>) returns (o: Outcome)
      modifies propertyList
      ensures o == Done <==> Unframe(bytes).Ok?
      ensures o.Raised? ==> o.error == Unframe(bytes).error && propertyList.entries == old(propertyList.entries)
      ensures o == Done ==> propertyList.entries == propertyList.codec.decode(Unframe(bytes).value)
    {
      var din := new DataInput(bytes);
      var len := din.ReadInt();
      if len.Throws? {
        return Raised(SerializationException(len.error.kind));
      }
      if len.value < 0 {
        return Raised(NegativeArraySizeException);
      }
      var data := din.ReadFully(len.value);
      if data.Throws? {
        return Raised(SerializationException(data.error.kind));
      }
      propertyList.FromBytes(data.value);
      o := Done;
    }

    /** `getBytes`: the property list's bytes behind their length. A Java
        array never holds more than INT_MAX bytes. */
    method GetBytes() returns (marshalled: seq<Byte>)
      requires |propertyList.codec.encode(propertyList.entries)| <= INT_MAX
      ensures marshalled == Frame(propertyList.codec.encode(propertyList.entries))
      ensures |marshalled| == 4 + |propertyList.codec.encode(propertyList.entries)|
    {
      var dout := new DataOutput();
      var data := propertyList.GetBytes();
      dout.WriteInt(|data|);
      dout.Write(data);
      dout.Flush();
      marshalled := dout.ToByteArray();
      FrameLayout(data);
    }
  }

  /** A configuration sent with `getBytes` and rebuilt with
      `TaskConf(byte[])` gives the new property list exactly the bytes the
      old one produced; when the list's own format round-trips, the
      properties arrive unchanged. */
  method Transfer(conf: TaskConf) returns (copy: TaskConf)
    requires |conf.propertyList.codec.encode(conf.propertyList.entries)| <= INT_MAX
    ensures fresh(copy) && copy.propertyList.codec == conf.propertyList.codec
    ensures copy.propertyList.entries ==
              conf.propertyList.codec.decode(conf.propertyList.codec.encode(conf.propertyList.entries))
  {
    var bytes := conf.GetBytes();
    UnframeFrame(conf.propertyList.codec.encode(conf.propertyList.entries), []);
    assert bytes + [] == bytes;
    var r := TaskConf.OfBytes(conf.propertyList.codec, bytes);
    copy := r.value;
  }
}
