/** Frames: the growing data buffer, the metadata and the comparison of frames. */
module Frames {
  import opened Common

  /** Everything US_FRAME_COPY_META copies. */
  datatype Meta = Meta(
    width: nat, height: nat, format: nat, stride: nat, online: bool, key: bool, gop: nat,
    grabTs: real, encodeBeginTs: real, encodeEndTs: real)
  {
    /** The fields US_FRAME_COMPARE_GEOMETRY looks at besides the used size: all but the timings. */
    predicate SameGeometry(m: Meta) {
      && width == m.width && height == m.height && format == m.format && stride == m.stride
      && online == m.online && key == m.key && gop == m.gop
    }
  }

  /** The comparison looks at everything but the timings. */
  lemma GeometryIsAllButTimings(a: Meta, b: Meta)
    ensures a.SameGeometry(b)
      <==> a.(grabTs := b.grabTs, encodeBeginTs := b.encodeBeginTs, encodeEndTs := b.encodeEndTs) == b
  {
  }

  /** A frame as a value. */
  datatype Image = Image(data: seq<Byte>, meta: Meta)

  class Frame {
    var data: array<Byte>      // data.Length is the allocated size
    var used: nat
    var meta: Meta

    ghost predicate Valid()
      reads this
    {
      used <= data.Length
    }

    ghost function Value(): Image
      requires Valid()
      reads this, data
    {
      Image(data[..used], meta)
    }

    constructor (size: nat, meta: Meta)
      ensures Valid() && used == 0 && this.meta == meta && data.Length == size && fresh(data)
    {
      data := new Byte[size];
      used := 0;
      this.meta := meta;
    }

    /** us_frame_realloc_data: never shrinks, and keeps the contents. */
    method Reallocate(size: nat)
      modifies `data
      ensures data.Length >= size && data.Length >= old(data.Length)
      ensures data[..old(data.Length)] == old(data[..])
      ensures data == old(data) || fresh(data)
    {
      if data.Length < size {
        var larger := new Byte[size];
        forall i | 0 <= i < data.Length {
          larger[i] := data[i];
        }
        data := larger;
      }
    }

    /** memcpy(frame->data + at, src, size) */
    method CopyIn(at: nat, src: seq<Byte>)
      requires at + |src| <= data.Length
      modifies data
      ensures data[..at] == old(data[..at]) && data[at..at + |src|] == src
    {
      for i := 0 to |src|
        invariant data[..at] == old(data[..at])
        invariant data[at..at + i] == src[..i]
      {
        data[at + i] := src[i];
        assert data[at..at + i + 1] == data[at..at + i] + [src[i]];
      }
      assert src[..|src|] == src;
    }

    /** us_frame_set_data */
    method SetData(src: seq<Byte>)
      modifies this, data
      ensures Valid() && Value() == Image(src, old(meta))
      ensures (data == old(data) || fresh(data)) && data.Length >= old(data.Length)
    {
      Reallocate(|src|);
      CopyIn(0, src);
      used := |src|;
    }

    /** us_frame_append_data */
    method AppendData(src: seq<Byte>)
      requires Valid()
      modifies this, data
      ensures Valid() && Value() == Image(old(Value().data) + src, old(meta))
      ensures (data == old(data) || fresh(data)) && data.Length >= old(data.Length)
    {
      var newUsed := used + |src|;
      Reallocate(newUsed);
      assert data[..used] == data[..old(data.Length)][..used];
      CopyIn(used, src);
      assert data[..newUsed] == data[..used] + data[used..newUsed];
      used := newUsed;
    }

    /** us_frame_copy: this frame becomes a copy of another one. */
    method CopyFrom(src: Frame)
      requires src.Valid() && src != this && src.data != data
      modifies this, data
      ensures Valid() && Value() == old(src.Value())
      ensures (data == old(data) || fresh(data)) && data.Length >= old(data.Length)
    {
      SetData(src.data[..src.used]);
      meta := src.meta;
    }

    /**
     us_frame_compare: same used size, same geometry and the same bytes; the timings do not
     count, and a frame without a buffer equals nothing.
     */
    method Compare(b: Frame) returns (same: bool)
      requires Valid() && b.Valid()
      ensures same <==>
        data.Length > 0 && b.data.Length > 0 && Value().data == b.Value().data && meta.SameGeometry(b.meta)
    {
      if data.Length == 0 || b.data.Length == 0 || used != b.used || !meta.SameGeometry(b.meta) {
        return false;
      }
      for i := 0 to b.used
        invariant data[..i] == b.data[..i]
      {
        if data[i] != b.data[i] {
          assert data[..used][i] != b.data[..used][i];
          return false;
        }
        assert data[..i + 1] == data[..i] + [data[i]];
        assert b.data[..i + 1] == b.data[..i] + [b.data[i]];
      }
      return true;
    }
  }
}
