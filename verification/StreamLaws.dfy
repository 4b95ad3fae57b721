/** What the two codecs promise about whole streams: the result does not depend on how TCP cut
    the stream, and no byte is lost track of. */
module StreamLaws {
  import opened DeviceModel
  import opened StreamSlicer
  import opened FrameCodec

  // ---------------------------------------------------------------- custom_data

  ghost function CustomRun(group: seq<DeviceDesc>, st: Stream, chunks: seq<seq<Byte>>): Stream
    requires GoodGroup(group)
  {
    CustomSound(group);
    FeedAll(CustomSlicer(group), st, chunks)
  }

  /** However a custom_data stream is cut, the rows, counters and pending bytes are those of one
      call; every byte is in a frame, dropped or pending; fewer than 64 KiB are pending. */
  lemma CustomStream(group: seq<DeviceDesc>, chunks: seq<seq<Byte>>)
    requires GoodGroup(group)
    ensures CustomRun(group, FRESH, chunks) == CustomRun(group, FRESH, [Concat(chunks)])
    ensures Balanced(CustomRun(group, FRESH, chunks)) && |CustomRun(group, FRESH, chunks).buf| < MAX_FRAME
    ensures CustomRun(group, FRESH, chunks).bytesIn == |Concat(chunks)|
  {
    CustomSound(group);
    var slice := CustomSlicer(group);
    assert slice([]) == NeedMore;
    StreamRun(slice, chunks);
  }

  lemma StreamRun(slice: Slicer, chunks: seq<seq<Byte>>)
    requires Sound(slice) && slice([]) == NeedMore
    ensures FeedAll(slice, FRESH, chunks) == Feed(slice, FRESH, Concat(chunks))
    ensures FeedAll(slice, FRESH, chunks) == FeedAll(slice, FRESH, [Concat(chunks)])
    ensures Balanced(FeedAll(slice, FRESH, chunks)) && |FeedAll(slice, FRESH, chunks).buf| < MAX_FRAME
    ensures FeedAll(slice, FRESH, chunks).bytesIn == |Concat(chunks)|
  {
    hide Sound, Scan;
    ChunkIndependence(slice, FRESH, chunks);
    RunConserves(slice, FRESH, chunks);
    var whole := [Concat(chunks)];
    assert whole[1..] == [];
    FeedSettles(slice, FRESH, Concat(chunks));
  }

  // ---------------------------------------------------------------- modbus

  ghost function ModbusRun(dev: DeviceDesc, st: Stream, chunks: seq<seq<Byte>>): Stream
    requires GoodSpec(dev.spec)
    decreases |chunks|
  {
    if chunks == [] then st else ModbusRun(dev, ModbusCall(dev, st, chunks[0]), chunks[1..])
  }

  lemma {:induction false} GoodModbusRun(dev: DeviceDesc, st: Stream, chunks: seq<seq<Byte>>)
    requires GoodModbus(dev)
    ensures Sound(ModbusSlicer(dev)) && ModbusRun(dev, st, chunks) == FeedAll(ModbusSlicer(dev), st, chunks)
    decreases |chunks|
  {
    hide Sound, Feed, ModbusStep, GoodSpec;
    ModbusSound(dev);
    if chunks != [] {
      GoodModbusRun(dev, ModbusCall(dev, st, chunks[0]), chunks[1..]);
    }
  }

  /** Configurations feedModbus does not slice: what a run leaves behind. */
  lemma {:induction false} OtherModbusRun(dev: DeviceDesc, st: Stream, chunks: seq<seq<Byte>>)
    requires GoodSpec(dev.spec) && !GoodModbus(dev)
    ensures var all := Concat(chunks);
      var arrived := st.(bytesIn := st.bytesIn + |all|);
      ModbusRun(dev, st, chunks) ==
        if dev.spec.fields == [] then arrived
        else if Oversize(dev.spec) then arrived.(buf := st.buf + all)
        else arrived.(done := st.done.(badFrames := st.done.badFrames + |chunks|))
    decreases |chunks|
  {
    if chunks == [] {
      assert st.buf + [] == st.buf;
    } else {
      OtherModbusRun(dev, ModbusCall(dev, st, chunks[0]), chunks[1..]);
      assert (st.buf + chunks[0]) + Concat(chunks[1..]) == st.buf + Concat(chunks);
    }
  }

  /** A configuration feedModbus rejects: the header length is unknown, or no field has extent. */
  predicate Rejected(spec: FrameSpec) { spec.fields != [] && !Sliceable(spec) }

  /** Chunk independence of feedModbus: it fails exactly for a rejected configuration, where each
      call counts one bad frame. */
  lemma ModbusChunkIndependence(dev: DeviceDesc, chunks: seq<seq<Byte>>)
    requires GoodSpec(dev.spec)
    ensures ModbusRun(dev, FRESH, chunks) == ModbusRun(dev, FRESH, [Concat(chunks)])
       <==> !Rejected(dev.spec) || |chunks| == 1
  {
    hide Scan, Sound, Feed, ModbusStep, GoodSpec;
    var all := Concat(chunks);
    assert [all][1..] == [all][..0];
    assert Concat([all]) == all by { assert all + [] == all; }
    if GoodModbus(dev) {
      ModbusSlicesEmpty(dev);
      GoodModbusRun(dev, FRESH, chunks);
      GoodModbusRun(dev, FRESH, [all]);
      StreamRun(ModbusSlicer(dev), chunks);
    } else {
      OtherModbusRun(dev, FRESH, chunks);
      OtherModbusRun(dev, FRESH, [all]);
    }
  }

  lemma ModbusSlicesEmpty(dev: DeviceDesc)
    requires GoodModbus(dev)
    ensures ModbusSlicer(dev)([]) == NeedMore
  {
  }

  /** The bytes of a run balance unless a configuration without slicing threw some away. */
  lemma ModbusConserves(dev: DeviceDesc, chunks: seq<seq<Byte>>)
    requires GoodSpec(dev.spec)
    ensures Balanced(ModbusRun(dev, FRESH, chunks))
       <==> (dev.spec.fields != [] && Sliceable(dev.spec)) || Concat(chunks) == []
  {
    hide Scan, Sound, Feed, ModbusStep, GoodSpec;
    if GoodModbus(dev) {
      ModbusSlicesEmpty(dev);
      GoodModbusRun(dev, FRESH, chunks);
      StreamRun(ModbusSlicer(dev), chunks);
    } else {
      OtherModbusRun(dev, FRESH, chunks);
    }
  }

  /** The pending bytes stay below 64 KiB in every run, except that an oversize fixed frame makes
      the buffer keep the whole stream. */
  lemma ModbusPendingBounded(dev: DeviceDesc, chunks: seq<seq<Byte>>)
    requires GoodSpec(dev.spec)
    ensures Oversize(dev.spec) && dev.spec.fields != [] ==> ModbusRun(dev, FRESH, chunks).buf == Concat(chunks)
    ensures |ModbusRun(dev, FRESH, chunks).buf| < MAX_FRAME
       <==> !(Oversize(dev.spec) && dev.spec.fields != []) || |Concat(chunks)| < MAX_FRAME
  {
    hide Scan, Sound, Feed, ModbusStep, GoodSpec;
    if GoodModbus(dev) {
      ModbusSlicesEmpty(dev);
      GoodModbusRun(dev, FRESH, chunks);
      StreamRun(ModbusSlicer(dev), chunks);
    } else {
      OtherModbusRun(dev, FRESH, chunks);
      assert [] + Concat(chunks) == Concat(chunks);
    }
  }
}
