/**
 The replay file format: a 96-byte header and 24 bytes per command, little-endian,
 written in one piece and read back in chunks by a strict parser.
 */
module Replay {
  import opened Types
  import opened Engine
  import opened Workload

  type Byte = x: int | 0 <= x < 256

  // ----- Little-endian numbers

  function Radix(n: nat): (r: nat)
    ensures r >= 1
  {
    if n == 0 then 1 else 256 * Radix(n - 1)
  }

  function Le(n: nat, x: nat): (bs: seq<Byte>)
    ensures |bs| == n
  {
    if n == 0 then [] else [x % 256] + Le(n - 1, x / 256)
  }

  function Number(bs: seq<Byte>): nat {
    if bs == [] then 0 else bs[0] + 256 * Number(bs[1..])
  }

  lemma {:induction false} NumberLe(n: nat, x: nat)
    requires x < Radix(n)
    ensures Number(Le(n, x)) == x
  {
    if n > 0 {
      assert Le(n, x)[1..] == Le(n - 1, x / 256);
      NumberLe(n - 1, x / 256);
    }
  }

  lemma {:induction false} LeNumber(bs: seq<Byte>)
    ensures Number(bs) < Radix(|bs|)
    ensures Le(|bs|, Number(bs)) == bs
  {
    if bs != [] {
      LeNumber(bs[1..]);
      assert Number(bs) % 256 == bs[0] && Number(bs) / 256 == Number(bs[1..]);
      assert bs == [bs[0]] + bs[1..];
    }
  }

  lemma Radices()
    ensures Radix(1) == 256 && Radix(4) == TWO32 && Radix(8) == TWO64
  {
    assert Radix(2) == 0x1_0000;
    assert Radix(4) == 0x1_0000 * Radix(2);
    assert Radix(6) == 0x1_0000 * Radix(4);
    assert Radix(8) == 0x1_0000 * Radix(6);
  }

  // The digits written out: byte i of a field weighs 256^i.
  function At32(bs: seq<Byte>, at: nat): (x: U32)
    requires at + 4 <= |bs|
  {
    var a: int, b: int, c: int, d: int := bs[at], bs[at + 1], bs[at + 2], bs[at + 3];
    a + 0x100 * b + 0x1_0000 * c + 0x100_0000 * d
  }

  function At64(bs: seq<Byte>, at: nat): (x: U64)
    requires at + 8 <= |bs|
  {
    At32(bs, at) + TWO32 * At32(bs, at + 4)
  }

  lemma Nest(a: nat, low: nat, r: nat, high: nat)
    ensures a + 256 * (low + r * high) == a + 256 * low + (256 * r) * high
  {
  }

  lemma {:induction false} NumberSplit(bs: seq<Byte>, k: nat)
    requires k <= |bs|
    ensures Number(bs) == Number(bs[..k]) + Radix(k) * Number(bs[k..])
  {
    if k == 0 {
      assert bs[0..] == bs;
    } else {
      NumberSplit(bs[1..], k - 1);
      assert bs[..k][1..] == bs[1..][..k - 1] && bs[1..][k - 1..] == bs[k..];
      Nest(bs[0], Number(bs[1..][..k - 1]), Radix(k - 1), Number(bs[k..]));
    }
  }

  lemma NumberAt32(bs: seq<Byte>, at: nat)
    requires at + 4 <= |bs|
    ensures Number(bs[at..at + 4]) == At32(bs, at)
  {
    var f := bs[at..at + 4];
    assert f[1..][1..] == f[2..] && f[2..][1..] == f[3..] && f[3..][1..] == [];
    assert Number(f[3..]) == f[3] && Number(f[2..]) == f[2] + 256 * Number(f[3..]);
    assert Number(f) == f[0] + 256 * (f[1] + 256 * Number(f[2..]));
  }

  lemma NumberAt64(bs: seq<Byte>, at: nat)
    requires at + 8 <= |bs|
    ensures Number(bs[at..at + 8]) == At64(bs, at)
  {
    hide Number;
    var f := bs[at..at + 8];
    NumberSplit(f, 4);
    Radices();
    NumberAt32(bs, at);
    NumberAt32(bs, at + 4);
    assert f[..4] == bs[at..at + 4] && f[4..] == bs[at + 4..at + 8];
  }

  // Two's complement.
  function Unsigned(p: Price): U64 {
    if p < 0 then p + TWO64 else p
  }

  function Signed(u: U64): Price {
    if u > INT64_MAX then u - TWO64 else u
  }

  // The 64-bit field, its top bit a sign.
  function PriceAt(bs: seq<Byte>, at: nat): Price
    requires at + 8 <= |bs|
  {
    At64(bs, at) - (if bs[at + 7] >= 0x80 then TWO64 else 0)
  }

  lemma SignBit(bs: seq<Byte>, at: nat, p: Price)
    requires at + 8 <= |bs| && At64(bs, at) == Unsigned(p)
    ensures PriceAt(bs, at) == p
  {
  }

  // ----- Packed records

  function Sum(widths: seq<nat>): nat {
    if widths == [] then 0 else widths[0] + Sum(widths[1..])
  }

  ghost predicate Fits(widths: seq<nat>, values: seq<nat>) {
    |widths| == |values| && forall i :: 0 <= i < |values| ==> values[i] < Radix(widths[i])
  }

  function Pack(widths: seq<nat>, values: seq<nat>): (bs: seq<Byte>)
    requires |widths| == |values|
    ensures |bs| == Sum(widths)
  {
    if widths == [] then [] else Le(widths[0], values[0]) + Pack(widths[1..], values[1..])
  }

  function Unpack(widths: seq<nat>, bs: seq<Byte>): (values: seq<nat>)
    requires |bs| == Sum(widths)
    ensures |values| == |widths|
  {
    if widths == [] then []
    else [Number(bs[..widths[0]])] + Unpack(widths[1..], bs[widths[0]..])
  }

  lemma {:induction false} UnpackPack(widths: seq<nat>, values: seq<nat>)
    requires Fits(widths, values)
    ensures Unpack(widths, Pack(widths, values)) == values
  {
    if widths != [] {
      var first, rest := Le(widths[0], values[0]), Pack(widths[1..], values[1..]);
      NumberLe(widths[0], values[0]);
      UnpackPack(widths[1..], values[1..]);
      assert (first + rest)[..widths[0]] == first && (first + rest)[widths[0]..] == rest;
      assert values == [values[0]] + values[1..];
    }
  }

  lemma {:induction false} PackUnpack(widths: seq<nat>, bs: seq<Byte>)
    requires |bs| == Sum(widths)
    ensures Fits(widths, Unpack(widths, bs))
    ensures Pack(widths, Unpack(widths, bs)) == bs
  {
    if widths != [] {
      LeNumber(bs[..widths[0]]);
      PackUnpack(widths[1..], bs[widths[0]..]);
      var values := Unpack(widths, bs);
      assert values[1..] == Unpack(widths[1..], bs[widths[0]..]);
      assert bs == bs[..widths[0]] + bs[widths[0]..];
    }
  }

  lemma SumUpTo(widths: seq<nat>, k: nat)
    requires k < |widths|
    ensures Sum(widths[..k + 1]) == Sum(widths[..k]) + widths[k]
  {
    if k > 0 {
      SumUpTo(widths[1..], k - 1);
      assert widths[..k + 1][1..] == widths[1..][..k] && widths[..k][1..] == widths[1..][..k - 1];
    }
  }

  // Field k starts where the fields before it end.
  lemma {:induction false} PackAt(widths: seq<nat>, values: seq<nat>, k: nat)
    requires |widths| == |values| && k < |widths|
    ensures var start := Sum(widths[..k]);
            start + widths[k] <= Sum(widths)
            && Pack(widths, values)[start..start + widths[k]] == Le(widths[k], values[k])
  {
    hide Le;
    var first, rest := Le(widths[0], values[0]), Pack(widths[1..], values[1..]);
    if k == 0 {
      assert (first + rest)[..widths[0]] == first;
    } else {
      PackAt(widths[1..], values[1..], k - 1);
      assert widths[..k][1..] == widths[1..][..k - 1];
      var start := Sum(widths[1..][..k - 1]);
      var w := widths[0];
      assert (first + rest)[w + start..w + start + widths[k]] == rest[start..start + widths[k]];
    }
  }

  // ----- Commands on disk: any byte is a legal code here

  datatype WireCommand = WireCommand(kind: Byte, side: Byte, otype: Byte, pad0: Byte, qty: U32, price: Price, id: U64)

  const COMMAND_SIZE := 24
  const COMMAND_WIDTHS: seq<nat> := [1, 1, 1, 1, 4, 8, 8]

  function CommandFields(c: WireCommand): seq<nat> {
    [c.kind, c.side, c.otype, c.pad0, c.qty, Unsigned(c.price), c.id]
  }

  function CommandBytes(c: WireCommand): (bs: seq<Byte>)
    ensures |bs| == COMMAND_SIZE
  {
    Pack(COMMAND_WIDTHS, CommandFields(c))
  }

  function CommandOf(bs: seq<Byte>): WireCommand
    requires |bs| == COMMAND_SIZE
  {
    PackUnpack(COMMAND_WIDTHS, bs);
    Radices();
    var v := Unpack(COMMAND_WIDTHS, bs);
    WireCommand(v[0], v[1], v[2], v[3], v[4], Signed(v[5]), v[6])
  }

  lemma CommandRoundTrip(c: WireCommand)
    ensures CommandOf(CommandBytes(c)) == c
  {
    Radices();
    UnpackPack(COMMAND_WIDTHS, CommandFields(c));
  }

  lemma CommandFaithful(bs: seq<Byte>)
    requires |bs| == COMMAND_SIZE
    ensures CommandBytes(CommandOf(bs)) == bs
  {
    Radices();
    PackUnpack(COMMAND_WIDTHS, bs);
    assert CommandFields(CommandOf(bs)) == Unpack(COMMAND_WIDTHS, bs);
  }

  // Where the fields of a record lie.
  lemma CommandLayout(c: WireCommand)
    ensures var bs := CommandBytes(c);
            && bs[0] == c.kind && bs[1] == c.side && bs[2] == c.otype && bs[3] == c.pad0
            && At32(bs, 4) == c.qty && PriceAt(bs, 8) == c.price && At64(bs, 16) == c.id
  {
    hide Pack, Sum, Number, Le, Unsigned;
    var w, v, bs := COMMAND_WIDTHS, CommandFields(c), CommandBytes(c);
    Radices();
    forall k | 0 <= k < 7
      ensures Sum(w[..k]) == if k < 5 then k else 8 * (k - 4)
    {
      CommandOffset(k);
    }
    forall k | 0 <= k < 4
      ensures bs[k] == v[k]
    {
      PackAt(w, v, k);
      OneByte(v[k]);
      assert bs[k] == bs[k..k + 1][0];
    }
    PackAt32(w, v, 4);
    PackAt64(w, v, 5);
    PackAt64(w, v, 6);
    SignBit(bs, 8, c.price);
  }

  lemma OneByte(x: Byte)
    ensures Le(1, x) == [x]
  {
    assert Le(0, x / 256) == [];
  }

  lemma {:induction false} CommandOffset(k: nat)
    requires k < |COMMAND_WIDTHS|
    ensures Sum(COMMAND_WIDTHS[..k]) == if k < 5 then k else 8 * (k - 4)
  {
    if k > 0 {
      CommandOffset(k - 1);
      SumUpTo(COMMAND_WIDTHS, k - 1);
    }
  }

  lemma PackAt32(widths: seq<nat>, values: seq<nat>, k: nat)
    requires Fits(widths, values) && k < |widths| && widths[k] == 4
    ensures Sum(widths[..k]) + 4 <= Sum(widths)
    ensures At32(Pack(widths, values), Sum(widths[..k])) == values[k]
  {
    hide Pack, Sum, Number, Le, Radix;
    PackAt(widths, values, k);
    NumberLe(4, values[k]);
    NumberAt32(Pack(widths, values), Sum(widths[..k]));
  }

  lemma PackAt64(widths: seq<nat>, values: seq<nat>, k: nat)
    requires Fits(widths, values) && k < |widths| && widths[k] == 8
    ensures Sum(widths[..k]) + 8 <= Sum(widths)
    ensures At64(Pack(widths, values), Sum(widths[..k])) == values[k]
  {
    hide Pack, Sum, Number, Le, Radix;
    PackAt(widths, values, k);
    NumberLe(8, values[k]);
    NumberAt64(Pack(widths, values), Sum(widths[..k]));
  }

  // ----- The embedded workload configuration

  const CONFIG_SIZE := 72
  const CONFIG_WIDTHS: seq<nat> := [8, 4, 4, 8, 4, 4, 4, 4, 4, 4, 4, 4, 4, 4, 4, 4]

  function ConfigFields(c: WorkloadConfig): seq<nat> {
    [Unsigned(c.engine.anchor), c.engine.radius, c.engine.capacity, c.seed,
     c.limitWeight, c.marketWeight, c.iocWeight, c.cancelWeight,
     c.minQty, c.maxQty, c.maxPriceOffset, c.crossOneIn,
     c.walkOneIn, c.maxWalkStep, c.walkRadius, c.pad0]
  }

  lemma SumFrom(widths: seq<nat>, k: nat)
    requires k < |widths|
    ensures Sum(widths[k..]) == widths[k] + Sum(widths[k + 1..])
  {
    assert widths[k..][1..] == widths[k + 1..];
  }

  lemma {:induction false} SumOfFours(widths: seq<nat>, k: nat)
    requires k <= |widths| && forall i :: k <= i < |widths| ==> widths[i] == 4
    ensures Sum(widths[k..]) == 4 * (|widths| - k)
    decreases |widths| - k
  {
    if k < |widths| {
      SumFrom(widths, k);
      SumOfFours(widths, k + 1);
    }
  }

  lemma ConfigWidths()
    ensures Sum(CONFIG_WIDTHS) == CONFIG_SIZE
  {
    hide Sum;
    var w := CONFIG_WIDTHS;
    assert w[0..] == w;
    SumFrom(w, 0);
    SumFrom(w, 1);
    SumFrom(w, 2);
    SumFrom(w, 3);
    SumOfFours(w, 4);
  }

  function ConfigBytes(c: WorkloadConfig): (bs: seq<Byte>)
    ensures |bs| == CONFIG_SIZE
  {
    ConfigWidths();
    Pack(CONFIG_WIDTHS, ConfigFields(c))
  }

  function Field32(v: seq<nat>, i: nat): (x: U32)
    requires Fits(CONFIG_WIDTHS, v) && i < |CONFIG_WIDTHS| && CONFIG_WIDTHS[i] == 4
    ensures x == v[i]
  {
    Radices();
    v[i]
  }

  function Field64(v: seq<nat>, i: nat): (x: U64)
    requires Fits(CONFIG_WIDTHS, v) && i < |CONFIG_WIDTHS| && CONFIG_WIDTHS[i] == 8
    ensures x == v[i]
  {
    Radices();
    v[i]
  }

  function ConfigOf(bs: seq<Byte>): WorkloadConfig
    requires |bs| == CONFIG_SIZE
  {
    hide Unpack, Pack, Fits, Sum;
    ConfigWidths();
    PackUnpack(CONFIG_WIDTHS, bs);
    var v := Unpack(CONFIG_WIDTHS, bs);
    WorkloadConfig(
      EngineConfig(Signed(Field64(v, 0)), Field32(v, 1), Field32(v, 2)), Field64(v, 3),
      Field32(v, 4), Field32(v, 5), Field32(v, 6), Field32(v, 7),
      Field32(v, 8), Field32(v, 9), Field32(v, 10), Field32(v, 11),
      Field32(v, 12), Field32(v, 13), Field32(v, 14), Field32(v, 15))
  }

  lemma ConfigRoundTrip(c: WorkloadConfig)
    ensures ConfigOf(ConfigBytes(c)) == c
  {
    Radices();
    UnpackPack(CONFIG_WIDTHS, ConfigFields(c));
  }

  lemma ConfigFaithful(bs: seq<Byte>)
    requires |bs| == CONFIG_SIZE
    ensures ConfigBytes(ConfigOf(bs)) == bs
  {
    hide Unpack, Pack, Fits, Sum, Radix;
    ConfigWidths();
    PackUnpack(CONFIG_WIDTHS, bs);
    assert ConfigFields(ConfigOf(bs)) == Unpack(CONFIG_WIDTHS, bs);
  }

  function ConfigStart(k: nat): nat {
    if k < 2 then 8 * k else if k < 4 then 4 * k + 4 else 4 * k + 8
  }

  lemma {:induction false} ConfigOffset(k: nat)
    requires k < |CONFIG_WIDTHS|
    ensures Sum(CONFIG_WIDTHS[..k]) == ConfigStart(k)
  {
    if k > 0 {
      ConfigOffset(k - 1);
      SumUpTo(CONFIG_WIDTHS, k - 1);
    }
  }

  lemma ConfigField(c: WorkloadConfig, k: nat)
    requires k < |CONFIG_WIDTHS|
    ensures var x := ConfigFields(c)[k];
            if k == 0 || k == 3 then At64(ConfigBytes(c), ConfigStart(k)) == x
            else At32(ConfigBytes(c), ConfigStart(k)) == x
  {
    hide Pack, Sum, Number, Le, Unsigned, At32, At64;
    ConfigWidths();
    Radices();
    ConfigOffset(k);
    if k == 0 || k == 3 {
      PackAt64(CONFIG_WIDTHS, ConfigFields(c), k);
    } else {
      PackAt32(CONFIG_WIDTHS, ConfigFields(c), k);
    }
  }

  // The offsets the format fixes, from 0 for the anchor to 68 for the padding.
  lemma ConfigLayout(c: WorkloadConfig)
    ensures var bs := ConfigBytes(c);
            && PriceAt(bs, 0) == c.engine.anchor
            && At32(bs, 8) == c.engine.radius && At32(bs, 12) == c.engine.capacity
            && At64(bs, 16) == c.seed
            && At32(bs, 24) == c.limitWeight && At32(bs, 28) == c.marketWeight
            && At32(bs, 32) == c.iocWeight && At32(bs, 36) == c.cancelWeight
            && At32(bs, 40) == c.minQty && At32(bs, 44) == c.maxQty
            && At32(bs, 48) == c.maxPriceOffset && At32(bs, 52) == c.crossOneIn
            && At32(bs, 56) == c.walkOneIn && At32(bs, 60) == c.maxWalkStep
            && At32(bs, 64) == c.walkRadius && At32(bs, 68) == c.pad0
  {
    hide ConfigBytes;
    ConfigField(c, 0);
    ConfigField(c, 1);
    ConfigField(c, 2);
    ConfigField(c, 3);
    ConfigField(c, 4);
    ConfigField(c, 5);
    ConfigField(c, 6);
    ConfigField(c, 7);
    ConfigField(c, 8);
    ConfigField(c, 9);
    ConfigField(c, 10);
    ConfigField(c, 11);
    ConfigField(c, 12);
    ConfigField(c, 13);
    ConfigField(c, 14);
    ConfigField(c, 15);
    SignBit(ConfigBytes(c), 0, c.engine.anchor);
  }

  // ----- Command lists

  function BodyBytes(cmds: seq<WireCommand>): (bs: seq<Byte>)
    ensures |bs| == COMMAND_SIZE * |cmds|
  {
    if cmds == [] then [] else CommandBytes(cmds[0]) + BodyBytes(cmds[1..])
  }

  function CommandsOf(bs: seq<Byte>, n: nat): (cmds: seq<WireCommand>)
    requires |bs| == COMMAND_SIZE * n
    ensures |cmds| == n
  {
    if n == 0 then [] else [CommandOf(bs[..COMMAND_SIZE])] + CommandsOf(bs[COMMAND_SIZE..], n - 1)
  }

  lemma {:induction false} BodyRoundTrip(cmds: seq<WireCommand>)
    ensures CommandsOf(BodyBytes(cmds), |cmds|) == cmds
  {
    hide CommandOf, CommandBytes;
    if cmds != [] {
      CommandRoundTrip(cmds[0]);
      BodyRoundTrip(cmds[1..]);
      var first, rest := CommandBytes(cmds[0]), BodyBytes(cmds[1..]);
      assert (first + rest)[..COMMAND_SIZE] == first && (first + rest)[COMMAND_SIZE..] == rest;
    }
  }

  lemma {:induction false} BodyFaithful(bs: seq<Byte>, n: nat)
    requires |bs| == COMMAND_SIZE * n
    ensures BodyBytes(CommandsOf(bs, n)) == bs
  {
    hide CommandOf, CommandBytes;
    if n > 0 {
      CommandFaithful(bs[..COMMAND_SIZE]);
      BodyFaithful(bs[COMMAND_SIZE..], n - 1);
      var cmds := CommandsOf(bs, n);
      assert cmds[1..] == CommandsOf(bs[COMMAND_SIZE..], n - 1);
      assert bs == bs[..COMMAND_SIZE] + bs[COMMAND_SIZE..];
    }
  }

  // Reading in two pieces is reading at once.
  lemma {:induction false} CommandsSplit(a: seq<Byte>, m: nat, b: seq<Byte>, n: nat)
    requires |a| == COMMAND_SIZE * m && |b| == COMMAND_SIZE * n
    ensures CommandsOf(a + b, m + n) == CommandsOf(a, m) + CommandsOf(b, n)
  {
    hide CommandOf;
    if m == 0 {
      assert a + b == b;
    } else {
      var first, rest := a[..COMMAND_SIZE], a[COMMAND_SIZE..];
      CommandsSplit(rest, m - 1, b, n);
      assert (a + b)[..COMMAND_SIZE] == first && (a + b)[COMMAND_SIZE..] == rest + b;
      var cmds, more := CommandsOf(rest, m - 1), CommandsOf(b, n);
      assert [CommandOf(first)] + (cmds + more) == [CommandOf(first)] + cmds + more;
    }
  }

  // ----- Files

  const HEADER_SIZE := 96
  const MAGIC: seq<Byte> := [0x4C, 0x4F, 0x42, 0x52, 0x50, 0x4C, 0x59, 0]
  const VERSION: U32 := 1
  const DEFAULT_CONFIG := WorkloadConfig(
    EngineConfig(0, 4096, 0x10_0000), 1, 60, 5, 15, 20, 1, 100, 256, 4, 4, 2, 4096, 0)

  function HeaderBytes(version: U32, pad: U32, n: U64, cfg: WorkloadConfig): (bs: seq<Byte>)
    ensures |bs| == HEADER_SIZE
  {
    MAGIC + Le(4, version) + Le(4, pad) + Le(8, n) + ConfigBytes(cfg)
  }

  function FileWith(version: U32, pad: U32, cfg: WorkloadConfig, cmds: seq<WireCommand>): (bs: seq<Byte>)
    requires |cmds| <= UINT64_MAX
    ensures |bs| == HEADER_SIZE + COMMAND_SIZE * |cmds|
  {
    HeaderBytes(version, pad, |cmds|, cfg) + BodyBytes(cmds)
  }

  // What write_replay puts out.
  function File(cfg: WorkloadConfig, cmds: seq<WireCommand>): (bs: seq<Byte>)
    requires |cmds| <= UINT64_MAX
    ensures |bs| == HEADER_SIZE + COMMAND_SIZE * |cmds|
  {
    FileWith(VERSION, 0, cfg, cmds)
  }

  datatype ReadError = NoError | TruncatedHeader | BadMagic | UnsupportedVersion | TruncatedBody | TrailingBytes

  datatype ReadResult = ReadResult(error: ReadError, config: WorkloadConfig, commands: seq<WireCommand>)

  function VersionOf(bs: seq<Byte>): nat
    requires |bs| >= HEADER_SIZE
  {
    Number(bs[8..12])
  }

  function CountOf(bs: seq<Byte>): (n: U64)
    requires |bs| >= HEADER_SIZE
  {
    LeNumber(bs[16..24]);
    Radices();
    Number(bs[16..24])
  }

  // The format as one pass over the whole byte string; on an error nothing is loaded.
  function Parse(bs: seq<Byte>): (r: ReadResult)
    ensures r.error != NoError ==> r.commands == []
  {
    if |bs| < HEADER_SIZE then ReadResult(TruncatedHeader, DEFAULT_CONFIG, [])
    else if bs[..8] != MAGIC then ReadResult(BadMagic, DEFAULT_CONFIG, [])
    else if VersionOf(bs) != VERSION then ReadResult(UnsupportedVersion, DEFAULT_CONFIG, [])
    else
      var cfg, n, body := ConfigOf(bs[24..HEADER_SIZE]), CountOf(bs), bs[HEADER_SIZE..];
      if |body| < COMMAND_SIZE * n then ReadResult(TruncatedBody, cfg, [])
      else if |body| > COMMAND_SIZE * n then ReadResult(TrailingBytes, cfg, [])
      else ReadResult(NoError, cfg, CommandsOf(body, n))
  }

  ghost predicate Labelled(bs: seq<Byte>) {
    |bs| >= 8 && (forall k :: 0 <= k < 7 ==> bs[k] == "LOBRPLY"[k] as int) && bs[7] == 0
  }

  // The diagnosis read off the bytes.
  ghost predicate Diagnosed(bs: seq<Byte>, error: ReadError) {
    && (error == TruncatedHeader <==> |bs| < 96)
    && (error == BadMagic <==> |bs| >= 96 && !Labelled(bs))
    && (error == UnsupportedVersion <==> |bs| >= 96 && Labelled(bs) && bs[8..12] != [1, 0, 0, 0])
    && (|bs| >= 96 && Labelled(bs) && bs[8..12] == [1, 0, 0, 0] ==>
          && (error == TruncatedBody <==> |bs| < 96 + 24 * At64(bs, 16))
          && (error == TrailingBytes <==> |bs| > 96 + 24 * At64(bs, 16))
          && (error == NoError <==> |bs| == 96 + 24 * At64(bs, 16)))
  }

  // For every byte string, which error it is answered with.
  lemma ParseDiagnoses(bs: seq<Byte>)
    ensures Diagnosed(bs, Parse(bs).error)
  {
    hide ConfigOf, CommandsOf, Number;
    if |bs| >= HEADER_SIZE {
      assert bs[..8] == MAGIC ==> forall k :: 0 <= k < 8 ==> bs[k] == MAGIC[k];
      NumberAt32(bs, 8);
      NumberAt64(bs, 16);
    }
  }

  lemma FileFields(version: U32, pad: U32, cfg: WorkloadConfig, cmds: seq<WireCommand>)
    requires |cmds| <= UINT64_MAX
    ensures var bs := FileWith(version, pad, cfg, cmds);
            && bs[..8] == MAGIC && VersionOf(bs) == version && bs[12..16] == Le(4, pad)
            && CountOf(bs) == |cmds| && bs[24..HEADER_SIZE] == ConfigBytes(cfg)
            && bs[HEADER_SIZE..] == BodyBytes(cmds)
  {
    hide Le, Number, ConfigBytes, BodyBytes, Radix;
    Radices();
    NumberLe(4, version);
    NumberLe(8, |cmds|);
    var bs := FileWith(version, pad, cfg, cmds);
    assert bs[8..12] == Le(4, version) && bs[16..24] == Le(8, |cmds|);
  }

  // The round trip, for every configuration and every list of commands; the header's
  // padding is not looked at.
  lemma ReadsBack(pad: U32, cfg: WorkloadConfig, cmds: seq<WireCommand>)
    requires |cmds| <= UINT64_MAX
    ensures Parse(FileWith(VERSION, pad, cfg, cmds)) == ReadResult(NoError, cfg, cmds)
  {
    hide FileWith, ConfigOf, ConfigBytes, CommandsOf, BodyBytes, Number, Le;
    FileFields(VERSION, pad, cfg, cmds);
    ConfigRoundTrip(cfg);
    BodyRoundTrip(cmds);
  }

  // Nothing else is accepted: a byte string that reads without error is the file of
  // what was read, up to the header's padding.
  lemma AcceptedIsFile(bs: seq<Byte>)
    requires Parse(bs).error == NoError
    ensures var r := Parse(bs);
            |r.commands| <= UINT64_MAX && Number(bs[12..16]) <= UINT32_MAX
            && bs == FileWith(VERSION, Number(bs[12..16]), r.config, r.commands)
  {
    hide ConfigOf, ConfigBytes, CommandsOf, BodyBytes, Number, Le;
    var r := Parse(bs);
    Radices();
    LeNumber(bs[8..12]);
    LeNumber(bs[12..16]);
    LeNumber(bs[16..24]);
    ConfigFaithful(bs[24..HEADER_SIZE]);
    BodyFaithful(bs[HEADER_SIZE..], CountOf(bs));
  }

  lemma LeZero()
    ensures Le(4, 0) == [0, 0, 0, 0]
  {
    assert Le(0, 0) == [] && Le(1, 0) == [0] && Le(2, 0) == [0, 0] && Le(3, 0) == [0, 0, 0];
  }

  // Reading and writing again gives the same bytes exactly when the padding is zero.
  lemma RewriteIff(bs: seq<Byte>)
    requires Parse(bs).error == NoError
    ensures |Parse(bs).commands| <= UINT64_MAX
    ensures File(Parse(bs).config, Parse(bs).commands) == bs <==> bs[12..16] == [0, 0, 0, 0]
  {
    hide ConfigOf, ConfigBytes, CommandsOf, BodyBytes, FileWith;
    AcceptedIsFile(bs);
    var r := Parse(bs);
    FileFields(VERSION, 0, r.config, r.commands);
    LeZero();
    if bs[12..16] == [0, 0, 0, 0] {
      NumberLe(4, 0);
    }
  }

  // Any other version is refused, whatever follows it.
  lemma WrongVersion(version: U32, pad: U32, cfg: WorkloadConfig, cmds: seq<WireCommand>)
    requires |cmds| <= UINT64_MAX && version != VERSION
    ensures Parse(FileWith(version, pad, cfg, cmds)).error == UnsupportedVersion
  {
    hide FileWith, ConfigOf, CommandsOf, Number, Le;
    FileFields(version, pad, cfg, cmds);
  }

  // A file cut short anywhere is reported as cut short, in the header or in the body.
  lemma CutShort(cfg: WorkloadConfig, cmds: seq<WireCommand>, n: nat)
    requires |cmds| <= UINT64_MAX && n < |File(cfg, cmds)|
    ensures Parse(File(cfg, cmds)[..n]).error == if n < HEADER_SIZE then TruncatedHeader else TruncatedBody
  {
    hide FileWith, ConfigOf, ConfigBytes, CommandsOf, BodyBytes, Number, Le;
    FileFields(VERSION, 0, cfg, cmds);
    var bs := File(cfg, cmds);
    if n >= HEADER_SIZE {
      assert bs[..n][..8] == bs[..8] && bs[..n][8..12] == bs[8..12] && bs[..n][16..24] == bs[16..24];
    }
  }

  // Any bytes after a file are reported.
  lemma TooLong(cfg: WorkloadConfig, cmds: seq<WireCommand>, extra: seq<Byte>)
    requires |cmds| <= UINT64_MAX && extra != []
    ensures Parse(File(cfg, cmds) + extra).error == TrailingBytes
  {
    hide FileWith, ConfigOf, ConfigBytes, CommandsOf, BodyBytes, Number, Le;
    FileFields(VERSION, 0, cfg, cmds);
    var bs := File(cfg, cmds);
    var all := bs + extra;
    assert all[..8] == bs[..8] && all[8..12] == bs[8..12] && all[16..24] == bs[16..24];
  }

  // ----- The streams

  class ByteWriter {
    var data: seq<Byte>

    constructor ()
      ensures data == []
    {
      data := [];
    }

    method Write(bs: seq<Byte>)
      modifies this
      ensures data == old(data) + bs
    {
      data := data + bs;
    }
  }

  class ByteReader {
    const data: seq<Byte>
    var pos: nat

    ghost predicate Valid()
      reads this
    {
      pos <= |data|
    }

    constructor (data: seq<Byte>)
      ensures Valid() && this.data == data && pos == 0
    {
      this.data := data;
      pos := 0;
    }

    // Up to n bytes: fewer only at the end.
    method Read(n: nat) returns (got: seq<Byte>)
      requires Valid()
      modifies this
      ensures Valid() && pos == Min(old(pos) + n, |data|)
      ensures got == data[old(pos)..pos]
    {
      var upto := Min(pos + n, |data|);
      got := data[pos..upto];
      pos := upto;
    }
  }

  method WriteReplay(out: ByteWriter, cfg: WorkloadConfig, cmds: seq<WireCommand>)
    requires |cmds| <= UINT64_MAX
    modifies out
    ensures out.data == old(out.data) + File(cfg, cmds)
  {
    hide HeaderBytes, BodyBytes;
    var header := HeaderBytes(VERSION, 0, |cmds|, cfg);
    ghost var was := out.data;
    out.Write(header);
    if |cmds| > 0 {
      out.Write(BodyBytes(cmds));
    }
    assert was + header + BodyBytes(cmds) == was + (header + BodyBytes(cmds));
  }

  const CHUNK: U64 := 4096

  // The chunked reader computes the one-pass parse of what is left in the stream.
  method ReadReplay(input: ByteReader) returns (res: ReadResult)
    requires input.Valid()
    modifies input
    ensures input.Valid() && res == Parse(old(input.data[input.pos..]))
    ensures Diagnosed(old(input.data[input.pos..]), res.error)
    ensures res.error != NoError ==> res.commands == []
  {
    hide ConfigOf, CommandsOf, Number, Le, Diagnosed;
    ghost var bs := input.data[input.pos..];
    ParseDiagnoses(bs);
    var header := input.Read(HEADER_SIZE);
    if |header| != HEADER_SIZE {
      return ReadResult(TruncatedHeader, DEFAULT_CONFIG, []);
    }
    assert header == bs[..HEADER_SIZE];
    HeaderOnly(bs);
    if header[..8] != MAGIC {
      return ReadResult(BadMagic, DEFAULT_CONFIG, []);
    }
    if VersionOf(header) != VERSION {
      return ReadResult(UnsupportedVersion, DEFAULT_CONFIG, []);
    }
    var cfg := ConfigOf(header[24..HEADER_SIZE]);
    ghost var count, body, base := CountOf(bs), bs[HEADER_SIZE..], input.pos;
    assert body == input.data[base..];
    var remaining: U64 := CountOf(header);
    var commands: seq<WireCommand> := [];
    ghost var done := 0;
    while remaining > 0
      invariant |commands| + remaining == count && done == COMMAND_SIZE * |commands| <= |body|
      invariant commands == CommandsOf(body[..done], |commands|)
      invariant input.Valid() && input.pos == base + done
    {
      var take := if remaining < CHUNK then remaining else CHUNK;
      var got := input.Read(take * COMMAND_SIZE);
      if |got| != take * COMMAND_SIZE {
        return ReadResult(TruncatedBody, cfg, []);
      }
      SliceOfTail(input.data, base, done, done + take * COMMAND_SIZE);
      CommandsSplit(body[..done], |commands|, got, take);
      commands := commands + CommandsOf(got, take);
      remaining := remaining - take;
      done := done + take * COMMAND_SIZE;
    }
    if input.pos != |input.data| {
      return ReadResult(TrailingBytes, cfg, []);
    }
    assert body[..done] == body;
    return ReadResult(NoError, cfg, commands);
  }

  lemma SliceOfTail(data: seq<Byte>, base: nat, i: nat, j: nat)
    requires base <= |data| && i <= j <= |data| - base
    ensures data[base..][..i] + data[base + i..base + j] == data[base..][..j]
  {
  }

  lemma HeaderOnly(bs: seq<Byte>)
    requires |bs| >= HEADER_SIZE
    ensures var header := bs[..HEADER_SIZE];
            && header[..8] == bs[..8] && VersionOf(header) == VersionOf(bs)
            && CountOf(header) == CountOf(bs) && header[24..HEADER_SIZE] == bs[24..HEADER_SIZE]
  {
    var header := bs[..HEADER_SIZE];
    assert header[8..12] == bs[8..12] && header[16..24] == bs[16..24];
  }

  // ----- What the commands mean

  function Wire(c: Command): WireCommand {
    WireCommand(if c.kind == New then 0 else 1, if c.side == Buy then 0 else 1,
                match c.otype case Limit => 0 case Market => 1 case Ioc => 2,
                0, c.qty, c.price, c.id)
  }

  // Unknown codes have no meaning.
  function Meaning(w: WireCommand): Option<Command> {
    if w.kind > 1 || w.side > 1 || w.otype > 2 then None
    else Some(Command(if w.kind == 0 then New else CommandType.Cancel, if w.side == 0 then Buy else Sell,
                      if w.otype == 0 then Limit else if w.otype == 1 then Market else Ioc,
                      w.qty, w.price, w.id))
  }

  function Wires(cmds: seq<Command>): seq<WireCommand> {
    seq(|cmds|, k requires 0 <= k < |cmds| => Wire(cmds[k]))
  }

  ghost predicate Means(ws: seq<WireCommand>, cmds: seq<Command>) {
    |ws| == |cmds| && forall k :: 0 <= k < |ws| ==> Meaning(ws[k]) == Some(cmds[k])
  }

  lemma {:induction false} BodyAt(cmds: seq<WireCommand>, k: nat)
    requires k < |cmds|
    ensures BodyBytes(cmds)[24 * k..24 * k + 24] == CommandBytes(cmds[k])
  {
    hide CommandBytes;
    var first, rest := CommandBytes(cmds[0]), BodyBytes(cmds[1..]);
    if k == 0 {
      assert (first + rest)[..24] == first;
    } else {
      BodyAt(cmds[1..], k - 1);
      assert (first + rest)[24 * k..24 * k + 24] == rest[24 * (k - 1)..24 * (k - 1) + 24];
    }
  }

  // A written file, byte by byte: the label, the version and the count, the
  // configuration from byte 24, and command k from byte 96 + 24 * k.
  lemma FileLayout(cfg: WorkloadConfig, cmds: seq<Command>, k: nat)
    requires |cmds| <= UINT64_MAX
    ensures var bs := File(cfg, Wires(cmds));
            && |bs| == 96 + 24 * |cmds|
            && Labelled(bs) && bs[8..16] == [1, 0, 0, 0, 0, 0, 0, 0] && At64(bs, 16) == |cmds|
            && bs[24..96] == ConfigBytes(cfg)
            && (k < |cmds| ==> CommandAt(bs[96 + 24 * k..96 + 24 * k + 24], cmds[k]))
  {
    hide ConfigBytes, Parse, FileWith, Le, Number, BodyBytes;
    var ws := Wires(cmds);
    var bs := File(cfg, ws);
    ReadsBack(0, cfg, ws);
    FileFields(VERSION, 0, cfg, ws);
    ParseDiagnoses(bs);
    NumberAt64(bs, 16);
    LeZero();
    assert bs[8..16] == bs[8..12] + bs[12..16];
    if k < |cmds| {
      BodyAt(ws, k);
      CommandLayout(ws[k]);
      assert bs[96 + 24 * k..96 + 24 * k + 24] == bs[96..][24 * k..24 * k + 24];
    }
  }

  ghost predicate CommandAt(bs: seq<Byte>, c: Command) {
    && |bs| == 24
    && bs[0] == (match c.kind case New => 0 case Cancel => 1)
    && bs[1] == (match c.side case Buy => 0 case Sell => 1)
    && bs[2] == (match c.otype case Limit => 0 case Market => 1 case Ioc => 2)
    && bs[3] == 0
    && At32(bs, 4) == c.qty && PriceAt(bs, 8) == c.price && At64(bs, 16) == c.id
  }

  lemma WiresMean(cmds: seq<Command>, read: seq<Command>)
    ensures Means(Wires(cmds), read) <==> read == cmds
  {
    forall c: Command
      ensures Meaning(Wire(c)) == Some(c)
    {
    }
  }

  // From generator to file to replay: a generated stream, written and read back, still
  // drives a fresh engine of the recorded configuration to the shadow's state, cleanly.
  lemma FilesReplayFaithfully(cfg: WorkloadConfig, cmds: seq<Command>, shadow: EngineState)
    requires |cmds| <= UINT64_MAX && Faithful(cfg.engine.capacity, cmds, shadow)
    ensures var r := Parse(File(cfg, Wires(cmds)));
            && r.error == NoError && r.config == cfg
            && forall read: seq<Command> :: Means(r.commands, read) ==>
                 Faithful(r.config.engine.capacity, read, shadow)
  {
    hide Faithful, Parse, FileWith, Means;
    ReadsBack(0, cfg, Wires(cmds));
    forall read: seq<Command> | Means(Wires(cmds), read)
      ensures read == cmds
    {
      WiresMean(cmds, read);
    }
  }
}
