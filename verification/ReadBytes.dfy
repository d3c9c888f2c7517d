/**
 The two-pass bounded read of a file that other processes may replace, resize or rewrite in place at
 any time.

 `first` and `second` record what each read of a pass saw.  A read returns a nonempty part of the file
 at the current position, possibly a short one, or nothing at the end of the file.
 */
module ReadBytes {
  import opened Common
  import opened Files

  /** A read: the contents of the file at that moment and the number of bytes returned. */
  datatype Read = Read(content: seq<Byte>, count: nat)

  predicate ReadOk(r: Read, position: nat) {
    if r.count == 0 then position >= |r.content| else position + r.count <= |r.content|
  }

  function Slice(r: Read, position: nat): seq<Byte>
    requires ReadOk(r, position)
  {
    if r.count == 0 then [] else r.content[position..position + r.count]
  }

  /** The bytes a pass returned. */
  ghost function Bytes(pass: seq<Read>): seq<Byte> {
    if pass == [] then []
    else
      var before, r := Bytes(pass[..|pass| - 1]), pass[|pass| - 1];
      if ReadOk(r, |before|) then before + Slice(r, |before|) else before
  }

  /** Every read continues where the one before stopped. */
  ghost predicate Continuous(pass: seq<Read>) {
    pass != [] ==>
      Continuous(pass[..|pass| - 1]) && ReadOk(pass[|pass| - 1], |Bytes(pass[..|pass| - 1])|)
  }

  /** A pass from the start to the end of the file. */
  ghost predicate WholePass(pass: seq<Read>) {
    Continuous(pass) && pass != [] && pass[|pass| - 1].count == 0
  }

  /** No write landed between the first and the last read. */
  ghost predicate Undisturbed(pass: seq<Read>, version: seq<Byte>) {
    forall i :: 0 <= i < |pass| ==> pass[i].content == version
  }

  /** No read asks for more than one chunk. */
  ghost predicate Pieces(pass: seq<Read>) { forall i :: 0 <= i < |pass| ==> pass[i].count <= READ_CHUNK }

  /** A pass takes at most one byte beyond the limit. */
  ghost predicate Bounded(pass: seq<Read>, maxBytes: int) { Pieces(pass) && |Bytes(pass)| <= maxBytes + 1 }

  lemma NoPieces()
    ensures Pieces([])
  {
  }

  lemma PiecesStep(pass: seq<Read>, r: Read)
    requires Pieces(pass) && r.count <= READ_CHUNK
    ensures Pieces(pass + [r])
  {
  }

  lemma BytesStep(pass: seq<Read>, r: Read)
    requires ReadOk(r, |Bytes(pass)|)
    ensures Bytes(pass + [r]) == Bytes(pass) + Slice(r, |Bytes(pass)|)
    ensures Continuous(pass + [r]) <==> Continuous(pass)
  {
    assert (pass + [r])[..|pass|] == pass;
  }

  /** The chunk is what the contents have at this position. */
  predicate Follows(contents: seq<Byte>, position: nat, chunk: seq<Byte>) {
    position + |chunk| <= |contents| && contents[position..position + |chunk|] == chunk
  }

  /** A read returns the next bytes of the file, or nothing at its end. */
  lemma ReadReturnsNext(r: Read, position: nat)
    requires ReadOk(r, position) && position <= |r.content|
    ensures Follows(r.content, position, Slice(r, position))
    ensures r.count == 0 ==> position == |r.content|
  {
  }

  /** Comparing a chunk with what the first pass returned. */
  method Repeats(contents: seq<Byte>, position: nat, chunk: seq<Byte>) returns (same: bool)
    requires position <= |contents|
    ensures same <==> Follows(contents, position, chunk)
    ensures same ==> position + |chunk| <= |contents| && contents[..position + |chunk|] == contents[..position] + chunk
  {
    var end := position + |chunk|;
    if end > |contents| || contents[position..end] != chunk { return false; }
    assert contents[..end] == contents[..position] + contents[position..end];
    return true;
  }

  /** An undisturbed pass is at every moment a prefix of the version, and at the end all of it. */
  lemma {:induction false} UndisturbedPass(pass: seq<Read>, version: seq<Byte>)
    requires Continuous(pass) && Undisturbed(pass, version)
    ensures Bytes(pass) <= version
    ensures WholePass(pass) ==> Bytes(pass) == version
  {
    if pass != [] {
      var rest, r := pass[..|pass| - 1], pass[|pass| - 1];
      assert Undisturbed(rest, version) && r.content == version;
      UndisturbedPass(rest, version);
      assert ReadOk(r, |Bytes(rest)|) && Bytes(pass) == Bytes(rest) + Slice(r, |Bytes(rest)|);
      hide Bytes, Continuous, Undisturbed, ReadOk, Slice;
      NextOfVersion(Bytes(rest), r);
    }
  }

  lemma NextOfVersion(before: seq<Byte>, r: Read)
    requires ReadOk(r, |before|) && before <= r.content
    ensures before + Slice(r, |before|) <= r.content
    ensures r.count == 0 ==> before + Slice(r, |before|) == r.content
  {
    if r.count > 0 {
      assert r.content[..|before| + r.count] == before + r.content[|before|..|before| + r.count];
    } else {
      assert before + [] == before;
    }
  }

  /** Whatever is written in between, each byte of a pass was in the file, at its position, at the
      moment of some read. */
  lemma {:induction false} EveryByteWasThere(pass: seq<Read>, k: nat)
    requires Continuous(pass) && k < |Bytes(pass)|
    ensures exists i :: 0 <= i < |pass| && k < |pass[i].content| && pass[i].content[k] == Bytes(pass)[k]
  {
    var rest, last := pass[..|pass| - 1], |pass| - 1;
    if k < |Bytes(rest)| {
      EveryByteWasThere(rest, k);
      var i :| 0 <= i < |rest| && k < |rest[i].content| && rest[i].content[k] == Bytes(rest)[k];
      assert pass[i] == rest[i];
    } else {
      assert pass[last].content[k] == Bytes(pass)[k];
    }
  }

  predicate SameFile(look: Look, expected: Stat) {
    look.Found? && look.stat.ino == expected.ino && look.stat.size == expected.size
  }

  /** What the two passes and all inspections of the path and of the descriptor must have shown. */
  ghost predicate Accepted(first: seq<Read>, second: seq<Read>, looks: seq<Look>, stats: seq<Stat>, ino: Ino, maxBytes: int) {
    && WholePass(first) && WholePass(second) && Bytes(first) == Bytes(second) && |Bytes(first)| <= maxBytes
    && |looks| == 4 && (forall i :: 0 <= i < 4 ==> SameFile(looks[i], Stat(ino, Regular, |Bytes(first)|)))
    && |stats| == 3 && (forall i :: 0 <= i < 3 ==> stats[i] == Stat(ino, Regular, |Bytes(first)|))
  }

  /** When both passes are disturbed alike, every check can pass, with the file of the same size at all
      times, although the file never held the bytes that are returned. */
  lemma BothPassesDisturbed()
    ensures exists first, second, looks, stats ::
      && Accepted(first, second, looks, stats, 0, 2)
      && forall r: Read :: r in first + second ==> |r.content| == |Bytes(first)| && r.content != Bytes(first)
  {
    var a, b, c := Read([0, 0], 1), Read([1, 1], 1), Read([1, 1], 0);
    var one, two, pass := [a], [a, b], [a, b, c];
    assert [] + [a] == one && one + [b] == two && two + [c] == pass;
    assert Bytes([]) == [] && Continuous([]);
    BytesStep([], a);
    assert Bytes(one) == [0];
    BytesStep(one, b);
    assert Bytes(two) == [0, 1];
    BytesStep(two, c);
    assert Bytes(pass) == [0, 1];
    assert [0, 0][1] != [0, 1][1] && [1, 1][0] != [0, 1][0];
    var info := Stat(0, Regular, 2);
    assert Accepted(pass, pass, [Found(info), Found(info), Found(info), Found(info)], [info, info, info], 0, 2);
  }

  datatype Error = BadLimit | Failing | NotRegular | TooLarge | Changed

  datatype Outcome = Contents(bytes: seq<Byte>) | Failed(error: Error)

  class Reader {
    const path: Name
    const calm: bool             // nobody interferes and no system call fails
    var world: World
    var ino: Ino                 // the inode behind the descriptor
    var position: nat            // its file position
    ghost var first: seq<Read>
    ghost var second: seq<Read>
    ghost var looks: seq<Look>   // what every inspection of the path found
    ghost var stats: seq<Stat>   // what every inspection of the descriptor found
    ghost var opens: nat
    ghost var closes: nat

    constructor (path: Name, world: World, calm: bool)
      ensures this.path == path && this.world == world && this.calm == calm
      ensures first == [] && second == [] && looks == [] && stats == [] && opens == 0 && closes == 0
    {
      this.path, this.world, this.calm, ino, position := path, world, calm, 0, 0;
      first, second, looks, stats, opens, closes := [], [], [], [], 0, 0;
    }

    twostate predicate Still() reads `world { calm ==> world == old(world) }

    /** Other processes move: anything may change. */
    method Interfere()
      modifies `world
      ensures Still()
    {
      if !calm { world := *; }
    }

    method Lstat() returns (r: Look)
      modifies `world, `looks
      ensures looks == old(looks) + [r] && Still() && (calm ==> r == LookAt(world, path))
    {
      Interfere();
      r := LookAt(world, path);
      var fails: bool := *;
      if fails && !calm { r := Unreadable; }
      looks := looks + [r];
    }

    method Fstat() returns (r: Option<Stat>)
      modifies `world, `stats
      ensures stats == if r.Some? then old(stats) + [r.value] else old(stats)
      ensures r.Some? ==> r.value.ino == ino
      ensures Still() && (calm && ino in world.nodes ==> r == Some(StatOf(world, ino)))
    {
      Interfere();
      var fails: bool := *;
      if fails && !calm { return None; }
      if ino !in world.nodes { return None; }
      r := Some(StatOf(world, ino));
      stats := stats + [r.value];
    }

    method Close()
      modifies `world, `closes
      ensures closes == old(closes) + 1 && Still()
    {
      Interfere();
      closes := closes + 1;
    }

    /** `os.read`: up to `size` bytes, None for an error. */
    method ReadSome(size: nat) returns (chunk: Option<seq<Byte>>, ghost r: Read)
      requires size > 0
      modifies `world, `position
      ensures chunk.Some? ==> ReadOk(r, old(position)) && r.count == |chunk.value| <= size
      ensures chunk.Some? ==> chunk.value == Slice(r, old(position))
      ensures position == old(position) + if chunk.Some? then |chunk.value| else 0
      ensures Still() && (calm && ino in world.nodes ==> chunk.Some? && r.content == world.nodes[ino].data)
    {
      Interfere();
      r := Read([], 0);
      var fails: bool := *;
      if fails && !calm { return None, r; }
      if ino !in world.nodes { return None, r; }
      var content := world.nodes[ino].data;
      if position >= |content| { return Some([]), Read(content, 0); }
      var count: int := *;
      if count < 1 || count > size || position + count > |content| { count := 1; }
      chunk, r := Some(content[position..position + count]), Read(content, count);
      position := position + count;
    }
 
    /** `_open_read_descriptor`: a descriptor for the very file that was inspected, or none left open. */
    method OpenDescriptor(expected: Stat) returns (info: Option<Stat>)
      modifies `world, `ino, `position, `looks, `stats, `opens, `closes
      ensures info.None? ==> |looks| <= |old(looks)| + 1
      ensures opens - old(opens) == closes - old(closes) + (if info.Some? then 1 else 0) && opens <= old(opens) + 1
      ensures info.Some? ==> position == 0 && info.value.ino == ino && |stats| == |old(stats)| + 1 && old(stats) <= stats
      ensures info.Some? ==> stats[|stats| - 1] == Stat(expected.ino, Regular, expected.size) && ino == expected.ino
      ensures info.Some? ==> |looks| == |old(looks)| + 1 && old(looks) <= looks && SameFile(looks[|looks| - 1], expected)
      ensures Still() && (calm && LookAt(world, path) == Found(expected) && expected.kind == Regular ==> info.Some?)
    {
      Interfere();
      var fails: bool := *;
      if fails && !calm { return None; }
      if path !in world.names { return None; }
      ino, position, opens := world.names[path], 0, opens + 1;
      info := Fstat();
      if info.None? || info.value.kind != Regular { Close(); return None; }
      var current := Lstat();
      if !SameFile(current, expected) || info.value.ino != expected.ino || info.value.size != expected.size {
        Close();
        return None;
      }
    }

    /** A calm system and an open file within the limit. */
    predicate Readable(maxBytes: int) reads `world, `ino {
      calm && ino in world.nodes && |world.nodes[ino].data| <= maxBytes
    }

    /** The next read of a pass: at most one chunk, and at most up to the read limit. */
    method ReadPiece(readLimit: int, ghost pass: seq<Read>) returns (chunk: Option<seq<Byte>>, ghost r: Read)
      requires position < readLimit && Continuous(pass) && |Bytes(pass)| == position && Pieces(pass)
      modifies `world, `position
      ensures chunk.Some? ==> Continuous(pass + [r]) && Bytes(pass + [r]) == Bytes(pass) + chunk.value && Pieces(pass + [r])
      ensures chunk.Some? ==> position == old(position) + |chunk.value| <= readLimit && r.count == |chunk.value|
      ensures Still() && (calm && ino in world.nodes ==> chunk.Some? && r.content == world.nodes[ino].data)
      ensures chunk.Some? ==> old(position) <= |r.content| ==>
                Follows(r.content, old(position), chunk.value) && (chunk.value == [] ==> old(position) == |r.content|)
    {
      hide Bytes, Continuous, ReadOk, Slice, Pieces, Follows;
      var left := readLimit - position;
      var size := if READ_CHUNK <= left then READ_CHUNK else left;
      ghost var start := position;
      chunk, r := ReadSome(size);
      if chunk.None? { return; }
      BytesStep(pass, r);
      PiecesStep(pass, r);
      if start <= |r.content| { ReadReturnsNext(r, start); }
    }

    /** The first pass: reads until the end of the file or one byte past the limit. */
    method FirstPass(maxBytes: int) returns (contents: Option<seq<Byte>>)
      requires maxBytes > 0 && position == 0 && first == []
      modifies `world, `position, `first
      ensures Bounded(first, maxBytes)
      ensures contents.Some? ==> WholePass(first) && Bytes(first) == contents.value && |contents.value| <= maxBytes
      ensures Still() && (Readable(maxBytes) ==> contents == Some(world.nodes[ino].data))
    {
      assert Bytes([]) == [] && Continuous([]);
      LastRead();
      hide Bytes, Continuous, Pieces, WholePass;
      NoPieces();
      var data, readLimit := [], maxBytes + 1;
      while |data| < readLimit
        invariant Continuous(first) && Bytes(first) == data && position == |data| <= readLimit && Still() && Pieces(first)
        invariant Readable(maxBytes) ==> data <= world.nodes[ino].data
      {
        var chunk, r := ReadPiece(readLimit, first);
        if chunk.None? { return None; }
        if Readable(maxBytes) { PrefixGrows(data, world.nodes[ino].data, chunk.value); }
        first := first + [r];
        if chunk.value == [] { return Some(data); }
        data := data + chunk.value;
      }
      return None;
    }

    /** The second pass: every chunk must repeat what the first pass returned, to the end. */
    method SecondPass(contents: seq<Byte>, maxBytes: int) returns (ok: bool)
      requires |contents| <= maxBytes && position == 0 && second == []
      modifies `world, `position, `second
      ensures Bounded(second, maxBytes)
      ensures ok ==> WholePass(second) && Bytes(second) == contents
      ensures Still() && (Readable(maxBytes) && contents == world.nodes[ino].data ==> ok)
    {
      assert Bytes([]) == [] && Continuous([]);
      LastRead();
      hide Bytes, Continuous, Pieces, Follows, WholePass;
      NoPieces();
      var verified, readLimit := 0, maxBytes + 1;
      while verified < readLimit
        invariant 0 <= verified <= |contents| && position == verified
        invariant Continuous(second) && Bytes(second) == contents[..verified] && Still() && Pieces(second)
      {
        var chunk, r := ReadPiece(readLimit, second);
        if chunk.None? { return false; }
        second := second + [r];
        if chunk.value == [] { return verified == |contents|; }
        var same := Repeats(contents, verified, chunk.value);
        if !same { return false; }
        verified := verified + |chunk.value|;
      }
      return false;
    }

    /** A pass whose last read returned nothing is whole. */
    lemma LastRead()
      ensures forall pass: seq<Read>, r: Read :: Continuous(pass + [r]) && r.count == 0 ==> WholePass(pass + [r])
    {
      hide Continuous;
    }

    lemma PrefixGrows(data: seq<Byte>, content: seq<Byte>, chunk: seq<Byte>)
      requires data <= content && Follows(content, |data|, chunk)
      ensures data + chunk <= content && (|data| == |content| ==> data == content)
    {
    }

    /** Both passes and the checks after each. */
    method ReadTwice(expected: Stat, maxBytes: int) returns (r: Outcome)
      requires maxBytes > 0 && position == 0 && first == [] && second == [] && expected.ino == ino
      modifies `world, `position, `first, `second, `looks, `stats
      ensures r.Contents? ==> |r.bytes| <= maxBytes && |r.bytes| == expected.size
      ensures r.Contents? ==> WholePass(first) && WholePass(second) && Bytes(first) == r.bytes == Bytes(second)
      ensures r.Contents? ==> |stats| == |old(stats)| + 2 && |looks| == |old(looks)| + 2
      ensures old(looks) <= looks && |looks| <= |old(looks)| + 2
      ensures r.Failed? ==> |looks| <= |old(looks)| + 1 || !SameFile(looks[|looks| - 1], expected)
      ensures r.Contents? ==> old(stats) <= stats && forall i :: |old(stats)| <= i < |stats| ==>
                stats[i] == Stat(ino, Regular, expected.size)
      ensures r.Contents? ==> forall i :: |old(looks)| <= i < |looks| ==> SameFile(looks[i], expected)
      ensures old(Readable(maxBytes)) && LookAt(old(world), path) == Found(expected) && expected.kind == Regular ==>
                r == Contents(old(world).nodes[ino].data)
    {
      hide WholePass, Bytes;
      var contents := FirstPass(maxBytes);
      if contents.None? { return Failed(Failing); }
      r := Contents(contents.value);
      var after := Fstat();
      if after.None? || after.value.kind != Regular { return Failed(Failing); }
      if after.value.size != expected.size || |r.bytes| != expected.size { return Failed(Changed); }
      var final := Lstat();
      if !SameFile(final, expected) { return Failed(Changed); }
      Interfere();
      position := *;
      if calm { position := 0; }
      if position != 0 { return Failed(Changed); }
      var same := SecondPass(r.bytes, maxBytes);
      if !same { return Failed(Changed); }
      var verified := Fstat();
      if verified.None? || verified.value.kind != Regular || verified.value.size != expected.size { return Failed(Changed); }
      var verifiedFinal := Lstat();
      if !SameFile(verifiedFinal, expected) { return Failed(Changed); }
    }

    /** What a read of a calm system gives. */
    function Expected(w: World, maxBytes: int): Outcome {
      var look := LookAt(w, path);
      if maxBytes <= 0 then Failed(BadLimit)
      else if !look.Found? then Failed(Failing)
      else if look.stat.kind != Regular then Failed(NotRegular)
      else if look.stat.size > maxBytes then Failed(TooLarge)
      else Contents(w.nodes[look.stat.ino].data)
    }

    /** `read_bytes` succeeds exactly when both passes ran over the whole file and returned the same
        bytes, within the limit, and the path and the descriptor named one regular file of this size at
        all inspections.  The bytes are one complete version of the file if either pass was
        undisturbed, and the descriptor is always closed once. */
    method ReadBytes(maxBytes: int) returns (r: Outcome)
      requires first == [] && second == [] && looks == [] && stats == [] && opens == 0 && closes == 0
      modifies this
      ensures opens == closes && opens <= 1
      ensures r.Contents? <==> Accepted(first, second, looks, stats, ino, maxBytes)
      ensures r.Contents? ==> WholePass(first) && WholePass(second) && Bytes(first) == r.bytes == Bytes(second)
      ensures r.Contents? ==> |r.bytes| <= maxBytes && |looks| == 4 && |stats| == 3
      ensures r.Contents? ==> forall look :: look in looks ==> look.Found? && look.stat.ino == ino && look.stat.size == |r.bytes|
      ensures r.Contents? ==> forall info :: info in stats ==> info == Stat(ino, Regular, |r.bytes|)
      ensures r.Contents? ==> forall v :: Undisturbed(first, v) || Undisturbed(second, v) ==> r.bytes == v
      ensures calm ==> r == Expected(old(world), maxBytes)
    {
      if maxBytes <= 0 { return Failed(BadLimit); }
      var look := Lstat();
      if !look.Found? { return Failed(Failing); }
      if look.stat.kind != Regular { return Failed(NotRegular); }
      if look.stat.size > maxBytes { return Failed(TooLarge); }
      var info := OpenDescriptor(look.stat);
      if info.None? { return Failed(Changed); }
      r := ReadTwice(look.stat, maxBytes);
      Close();
      assert looks[0] == look;
      if r.Contents? {
        forall v | Undisturbed(first, v) || Undisturbed(second, v)
          ensures r.bytes == v
        {
          if Undisturbed(first, v) { UndisturbedPass(first, v); } else { UndisturbedPass(second, v); }
        }
      }
    }
  }
}
