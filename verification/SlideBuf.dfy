/**
 The sliding byte buffer under both protocol codecs (slidebuf/src/slidebuf.rs): one
 array with a read and a write cursor. `Data()` is the abstract value, a byte FIFO
 bounded by the capacity; moving bytes to the front of the array never shows in it.
 */
module SlideBuffer {
  import opened Bytes
  import opened Wrappers

  datatype Error =
    | NotEnoughBytes
    | NotEnoughSpace(cap: nat, wcap: nat, n: nat)

  class SlideBuf {
    const buf: array<byte>
    var wp: nat
    var rp: nat

    ghost predicate Valid()
      reads this
    {
      rp <= wp <= buf.Length
    }

    function Data(): seq<byte>
      requires Valid()
      reads this, buf
    {
      buf[rp..wp]
    }

    function Cap(): nat {
      buf.Length
    }

    function Len(): (n: nat)
      requires Valid()
      reads this, buf
      ensures n == |Data()|
    {
      wp - rp
    }

    /** Room behind the write cursor, before any rewind. */
    function Wcap(): nat
      requires Valid()
      reads this
    {
      buf.Length - wp
    }

    constructor (cap: nat)
      ensures Valid() && Cap() == cap && Data() == [] && Wcap() == cap
      ensures fresh(buf)
    {
      buf := new byte[cap](_ => 0);
      wp, rp := 0, 0;
    }

    method Reset()
      requires Valid()
      modifies this
      ensures Valid() && Data() == [] && Wcap() == Cap()
    {
      rp := 0;
      wp := 0;
    }

    method Adv(x: nat) returns (r: Result<(), Error>)
      requires Valid()
      modifies this`rp
      ensures Valid()
      ensures r.Ok? <==> x <= |old(Data())|
      ensures r.Ok? ==> Data() == old(Data())[x..]
      ensures r.Err? ==> r.error == NotEnoughBytes && Data() == old(Data())
    {
      if Len() < x {
        return Err(NotEnoughBytes);
      }
      rp := rp + x;
      return Ok(());
    }

    /** The copy within the array, as one simultaneous move. */
    method Rewind()
      requires Valid()
      modifies this, buf
      ensures Valid() && Data() == old(Data())
      ensures rp == 0 && Wcap() == Cap() - |Data()|
    {
      var n := wp - rp;
      forall i | 0 <= i < n {
        buf[i] := buf[rp + i];
      }
      wp := n;
      rp := 0;
    }

    method RewindIfNeeded(needMin: nat)
      requires Valid()
      modifies this, buf
      ensures Valid() && Data() == old(Data())
      ensures Wcap() >= old(Wcap())
    {
      if rp != 0 && rp == wp {
        rp := 0;
        wp := 0;
      } else if Cap() < rp + needMin {
        Rewind();
      }
    }

    /** The check before every write: afterwards n bytes fit behind the cursor exactly when
        they fit in the buffer at all. */
    method MakeRoom(n: nat)
      requires Valid()
      modifies this, buf
      ensures Valid() && Data() == old(Data())
      ensures Wcap() >= old(Wcap())
      ensures n <= Wcap() <==> |Data()| + n <= Cap()
    {
      RewindIfNeeded(n);
      if Wcap() < n {
        Rewind();
      }
    }

    /** Moves the write cursor over x bytes that someone stored in the writable area. When
        they fit behind the cursor nothing moves, so it is those bytes that become data. */
    method Wadv(x: nat) returns (r: Result<(), Error>)
      requires Valid()
      modifies this, buf
      ensures Valid()
      ensures r.Ok? <==> |old(Data())| + x <= Cap()
      ensures x <= old(Wcap()) ==> r.Ok? && Data() == old(Data()) + old(buf[wp..])[..x]
      ensures x <= old(Wcap()) ==> buf[..] == old(buf[..]) && rp == old(rp)
      ensures r.Ok? ==> |Data()| == |old(Data())| + x && old(Data()) <= Data()
      ensures r.Err? ==> r.error.NotEnoughSpace? && Data() == old(Data())
    {
      if Wcap() < x {
        Rewind();
      }
      if Wcap() < x {
        return Err(NotEnoughSpace(Cap(), Wcap(), x));
      }
      wp := wp + x;
      return Ok(());
    }

    method SetRp(p: nat) returns (r: Result<(), Error>)
      requires Valid()
      modifies this`rp
      ensures Valid()
      ensures r.Ok? <==> p <= wp
      ensures r.Ok? ==> Data() == buf[..][p..wp]
      ensures r.Err? ==> Data() == old(Data())
    {
      if p > wp {
        return Err(NotEnoughBytes);
      }
      rp := p;
      return Ok(());
    }

    /** Un-reads n bytes. */
    method RewindRp(n: nat) returns (r: Result<(), Error>)
      requires Valid()
      modifies this`rp
      ensures Valid()
      ensures r.Ok? <==> n <= old(rp)
      ensures r.Ok? ==> |Data()| == |old(Data())| + n && Data()[n..] == old(Data())
      ensures r.Err? ==> Data() == old(Data())
    {
      if rp < n {
        return Err(NotEnoughBytes);
      }
      rp := rp - n;
      return Ok(());
    }

    /** The body shared by the integer readers; ts is the size of the integer type. */
    method ReadBe(ts: nat) returns (r: Result<nat, Error>)
      requires Valid()
      modifies this`rp
      ensures Valid()
      ensures r.Ok? <==> ts <= |old(Data())|
      ensures r.Ok? ==> r.value == FromBe(old(Data())[..ts]) && r.value < Pow256(ts)
      ensures r.Ok? ==> Data() == old(Data())[ts..]
      ensures r.Err? ==> r.error == NotEnoughBytes && Data() == old(Data())
    {
      if Len() < ts {
        return Err(NotEnoughBytes);
      }
      var bytes := buf[rp..rp + ts];
      assert bytes == Data()[..ts];
      FromBeBound(bytes);
      var val := FromBe(bytes);
      rp := rp + ts;
      return Ok(val);
    }

    method ReadBytes(n: nat) returns (r: Result<seq<byte>, Error>)
      requires Valid()
      modifies this`rp
      ensures Valid()
      ensures r.Ok? <==> n <= |old(Data())|
      ensures r.Ok? ==> r.value == old(Data())[..n] && Data() == old(Data())[n..]
      ensures r.Err? ==> r.error == NotEnoughBytes && Data() == old(Data())
    {
      if Len() < n {
        return Err(NotEnoughBytes);
      }
      var val := buf[rp..rp + n];
      rp := rp + n;
      return Ok(val);
    }

    /** Offers everything behind the write cursor, at least needMin bytes of it, and succeeds
        exactly when needMin bytes fit in the buffer at all. */
    method AvailableWritableArea(needMin: nat) returns (r: Result<nat, Error>)
      requires Valid()
      modifies this, buf
      ensures Valid() && Data() == old(Data())
      ensures r.Ok? <==> |old(Data())| + needMin <= Cap()
      ensures r.Ok? ==> needMin <= Wcap() && r.value == Wcap()
      ensures r.Err? ==> r.error.NotEnoughSpace?
    {
      MakeRoom(needMin);
      if Wcap() < needMin {
        return Err(NotEnoughSpace(Cap(), Wcap(), needMin));
      }
      return Ok(Wcap());
    }

    /** What the owner of the writable area (a socket read, an encoder) does with it. */
    method Fill(s: seq<byte>)
      requires Valid() && |s| <= Wcap()
      modifies buf
      ensures Valid() && Data() == old(Data())
      ensures buf[wp..][..|s|] == s
    {
      forall i | 0 <= i < |s| {
        buf[wp + i] := s[i];
      }
    }

    method PutSlice(s: seq<byte>) returns (r: Result<(), Error>)
      requires Valid()
      modifies this, buf
      ensures Valid()
      ensures r.Ok? <==> |old(Data())| + |s| <= Cap()
      ensures |s| <= old(Wcap()) ==> r.Ok?
      ensures r.Ok? ==> Data() == old(Data()) + s && Wcap() + |s| >= old(Wcap())
      ensures r.Err? ==> r.error.NotEnoughSpace? && Data() == old(Data())
    {
      MakeRoom(|s|);
      if Wcap() < |s| {
        return Err(NotEnoughSpace(Cap(), Wcap(), |s|));
      }
      forall i | 0 <= i < |s| {
        buf[wp + i] := s[i];
      }
      wp := wp + |s|;
      return Ok(());
    }

    /** The body shared by the integer writers; ts is the size of the integer type. */
    method PutBe(v: nat, ts: nat) returns (r: Result<(), Error>)
      requires Valid() && v < Pow256(ts)
      modifies this, buf
      ensures Valid()
      ensures r.Ok? <==> |old(Data())| + ts <= Cap()
      ensures ts <= old(Wcap()) ==> r.Ok?
      ensures r.Ok? ==> Data() == old(Data()) + ToBe(v, ts) && Wcap() + ts >= old(Wcap())
      ensures r.Err? ==> r.error.NotEnoughSpace? && Data() == old(Data())
    {
      r := PutSlice(ToBe(v, ts));
    }
  }
}
