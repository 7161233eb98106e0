/** The bytes of the `set_rewardz_root` instruction and the parser's reading of them. */
module InstructionData {
  import opened Common
  import opened Bytes

  /** What `set_rewardz_root` carries. */
  datatype Instruction = Instruction(root: Digest, epoch: nat, total: nat, denyList: seq<Pubkey>)

  function Flatten(keys: seq<Pubkey>): (b: Bytes)
    ensures |b| == 32 * |keys|
  {
    if keys == [] then [] else Flatten(keys[..|keys| - 1]) + keys[|keys| - 1]
  }

  function Unflatten(b: Bytes, n: nat): seq<Pubkey>
    requires |b| == 32 * n
  {
    if n == 0 then [] else Unflatten(b[..32 * (n - 1)], n - 1) + [b[32 * (n - 1)..]]
  }

  const HEADER_LEN := 58

  /** The parser's reading of the layout: discriminator, root, epoch, total, length, entries. */
  function Decode(b: Bytes): Option<Instruction> {
    if |b| < HEADER_LEN then None
    else
      var h: Bytes, n: nat := b[..HEADER_LEN], b[57];
      if |b| != HEADER_LEN + 32 * n then None
      else Some(Instruction(h[1..33], FromLe(h[33..41]), FromLe(h[41..57]), Unflatten(b[HEADER_LEN..], n)))
  }

  function Header(disc: Byte, ix: Instruction): (h: Bytes)
    ensures |h| == HEADER_LEN
  {
    [disc] + ix.root + LeBytes(ix.epoch, 8) + LeBytes(ix.total, 16) + [|ix.denyList| % 256]
  }

  function Encode(disc: Byte, ix: Instruction): Bytes {
    Header(disc, ix) + Flatten(ix.denyList)
  }

  /** `ix_data` grows push by push; the list's length is truncated to a byte. */
  method BuildInstructionData(disc: Byte, ix: Instruction) returns (data: Bytes)
    ensures data == Encode(disc, ix)
  {
    data := [disc];
    data := data + ix.root;
    data := data + LeBytes(ix.epoch, 8);
    data := data + LeBytes(ix.total, 16);
    data := data + [|ix.denyList| % 256];
    data := PushAll(data, ix.denyList);
  }

  method PushAll(header: Bytes, keys: seq<Pubkey>) returns (data: Bytes)
    ensures data == header + Flatten(keys)
  {
    data := header;
    for i := 0 to |keys|
      invariant data == header + Flatten(keys[..i])
    {
      assert keys[..i + 1][..i] == keys[..i];
      data := data + keys[i];
    }
    assert keys[..|keys|] == keys;
  }

  lemma {:induction false} UnflattenFlatten(keys: seq<Pubkey>)
    ensures Unflatten(Flatten(keys), |keys|) == keys
  {
    if keys == [] {
    } else {
      var n := |keys| - 1;
      UnflattenFlatten(keys[..n]);
      assert Flatten(keys)[..32 * n] == Flatten(keys[..n]);
      assert Flatten(keys)[32 * n..] == keys[n];
    }
  }

  /** A slice of the front is a slice of the whole. */
  lemma Slice(a: Bytes, more: Bytes, from: nat, to: nat)
    requires from <= to <= |a|
    ensures (a + more)[from..to] == a[from..to]
  {
  }

  lemma PartsOf(disc: Byte, root: Bytes, epoch: Bytes, total: Bytes, last: Byte)
    requires |root| == 32 && |epoch| == 8 && |total| == 16
    ensures var h := [disc] + root + epoch + total + [last];
      h[0] == disc && h[1..33] == root && h[33..41] == epoch && h[41..57] == total && h[57] == last
  {
    var a := [disc] + root;
    var b := a + epoch;
    var c := b + total;
    assert a[1..33] == root && b[33..41] == epoch && c[41..57] == total;
    Slice(a, epoch, 1, 33);
    Slice(b, total, 1, 33);
    Slice(b, total, 33, 41);
    Slice(c, [last], 1, 33);
    Slice(c, [last], 33, 41);
    Slice(c, [last], 41, 57);
  }

  lemma HeaderParts(disc: Byte, ix: Instruction)
    ensures var h := Header(disc, ix);
      && h[0] == disc && h[1..33] == ix.root && h[33..41] == LeBytes(ix.epoch, 8) && h[41..57] == LeBytes(ix.total, 16)
      && h[57] == |ix.denyList| % 256
  {
    PartsOf(disc, ix.root, LeBytes(ix.epoch, 8), LeBytes(ix.total, 16), |ix.denyList| % 256);
  }

  lemma EncodeParts(disc: Byte, ix: Instruction)
    ensures var b := Encode(disc, ix);
      && |b| == HEADER_LEN + 32 * |ix.denyList|
      && b[..HEADER_LEN] == Header(disc, ix) && b[HEADER_LEN..] == Flatten(ix.denyList)
  {
  }

  lemma {:induction false} FlattenAt(keys: seq<Pubkey>, j: nat)
    requires j < |keys|
    ensures Flatten(keys)[32 * j..32 * j + 32] == keys[j]
  {
    var n := |keys| - 1;
    assert Flatten(keys) == Flatten(keys[..n]) + keys[n];
    if j < n {
      FlattenAt(keys[..n], j);
      Slice(Flatten(keys[..n]), keys[n], 32 * j, 32 * j + 32);
    }
  }

  /** Every byte of the instruction: the discriminator, the root, the epoch and the total with their
      least significant byte first, the length, and the keys of the list one after the other. */
  lemma Layout(disc: Byte, ix: Instruction)
    ensures var b := Encode(disc, ix);
      && |b| == 58 + 32 * |ix.denyList|
      && b[0] == disc && b[1..33] == ix.root && b[57] == |ix.denyList| % 256
      && (forall i :: 0 <= i < 8 ==> b[33 + i] == ix.epoch / Pow256(i) % 256)
      && (forall i :: 0 <= i < 16 ==> b[41 + i] == ix.total / Pow256(i) % 256)
      && (forall j :: 0 <= j < |ix.denyList| ==> b[58 + 32 * j..58 + 32 * j + 32] == ix.denyList[j])
  {
    var h, rest := Header(disc, ix), Flatten(ix.denyList);
    HeaderParts(disc, ix);
    Slice(h, rest, 1, 33);
    forall i | 0 <= i < 8 ensures h[33 + i] == ix.epoch / Pow256(i) % 256 {
      assert h[33 + i] == h[33..41][i];
      LeByteAt(ix.epoch, 8, i);
    }
    forall i | 0 <= i < 16 ensures h[41 + i] == ix.total / Pow256(i) % 256 {
      assert h[41 + i] == h[41..57][i];
      LeByteAt(ix.total, 16, i);
    }
    forall j | 0 <= j < |ix.denyList| ensures (h + rest)[58 + 32 * j..58 + 32 * j + 32] == ix.denyList[j] {
      FlattenAt(ix.denyList, j);
      TailSlice(h, rest, 32 * j, 32 * j + 32);
    }
  }

  lemma TailSlice(front: Bytes, a: Bytes, from: nat, to: nat)
    requires from <= to <= |a|
    ensures (front + a)[|front| + from..|front| + to] == a[from..to]
  {
  }

  /** The parser reads back the instruction exactly when the deny list's length fits its byte. */
  lemma DecodeEncode(disc: Byte, ix: Instruction)
    requires ix.epoch < Pow256(8) && ix.total < Pow256(16)
    ensures Decode(Encode(disc, ix)) == Some(ix) <==> |ix.denyList| < 256
  {
    var b := Encode(disc, ix);
    EncodeParts(disc, ix);
    HeaderParts(disc, ix);
    assert b[57] == b[..HEADER_LEN][57] == |ix.denyList| % 256;
    if |ix.denyList| < 256 {
      DecodeShort(disc, ix);
    } else {
      assert Decode(b).None?;
    }
  }

  /** The header's fields come back. */
  lemma HeaderNumbers(disc: Byte, ix: Instruction)
    requires ix.epoch < Pow256(8) && ix.total < Pow256(16)
    ensures var h := Header(disc, ix);
      h[1..33] == ix.root && FromLe(h[33..41]) == ix.epoch && FromLe(h[41..57]) == ix.total
  {
    HeaderParts(disc, ix);
    LeRoundTrip(ix.epoch, 8);
    LeRoundTrip(ix.total, 16);
  }

  lemma DecodeParts(header: Bytes, rest: Bytes, n: nat)
    requires |header| == HEADER_LEN && header[57] == n && |rest| == 32 * n
    ensures Decode(header + rest) == Some(Instruction(
      header[1..33], FromLe(header[33..41]), FromLe(header[41..57]), Unflatten(rest, n)))
  {
    assert (header + rest)[..HEADER_LEN] == header && (header + rest)[HEADER_LEN..] == rest;
  }

  lemma DecodeShort(disc: Byte, ix: Instruction)
    requires ix.epoch < Pow256(8) && ix.total < Pow256(16) && |ix.denyList| < 256
    ensures Decode(Encode(disc, ix)) == Some(ix)
  {
    HeaderParts(disc, ix);
    DecodeParts(Header(disc, ix), Flatten(ix.denyList), |ix.denyList|);
    HeaderNumbers(disc, ix);
    UnflattenFlatten(ix.denyList);
  }
}
