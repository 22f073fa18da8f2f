/**
 * The Python SDK's codec (codec.py): the same identifier codec and PGN
 * registry as the C SDK over Python's unbounded ints, the per-PGN signal
 * decoder that returns a dict, the encoder that fills an eight-byte
 * bytearray, and the frame-level decode and encode. Python exceptions are
 * returned as `Failure` values.
 */
module PyCodec {
  import opened Bits
  import opened J1939
  import opened PyFormat
  import C = CCodec

  /* ------------------------------------------------------------------ */
  /* Python values and errors                                            */
  /* ------------------------------------------------------------------ */

  datatype Option<T> = None | Some(value: T)

  /** The exceptions the codec and the client raise, with their messages. */
  datatype PyError = ValueError(msg: string) | RuntimeError(msg: string) | TypeError(msg: string)

  /** A value, or the exception raised instead of returning one. */
  datatype Result<T> = Success(value: T) | Failure(error: PyError)

  /** What a bytearray store outside 0-255 raises. */
  const ByteRangeError := ValueError("byte must be in range(0, 256)")

  /** What `x & 0xFF` raises when x is a float. */
  const FloatAndError := TypeError("unsupported operand type(s) for &: 'float' and 'int'")

  /** A decoded signal value: int, float (an exact real here), str or bool. */
  datatype PyValue = IntVal(i: int) | FloatVal(x: real) | StrVal(s: string) | BoolVal(b: bool)

  /** A value given to the encoder: int, float or bool. */
  datatype Field = IntField(i: int) | FloatField(x: real) | BoolField(b: bool)

  /** `data.get(key, default)`. */
  function Get(data: map<string, Field>, key: string, default: Field): (v: Field)
  {
    if key in data then data[key] else default
  }

  /** `int(x)` of a real: truncation toward zero. */
  function Trunc(x: real): (n: int)
    ensures x >= 0.0 ==> n as real <= x < n as real + 1.0
    ensures x < 0.0 ==> n as real - 1.0 < x <= n as real
  {
    if x >= 0.0 then x.Floor else -((-x).Floor)
  }

  /** `int(v)`: a float truncates toward zero, a bool is 0 or 1. */
  function IntOf(v: Field): (n: int)
  {
    match v
    case IntField(i) => i
    case FloatField(x) => Trunc(x)
    case BoolField(b) => if b then 1 else 0
  }

  /** The number `v / 0.125` divides: the float value of an int, float or bool. */
  function RealOf(v: Field): (x: real)
  {
    match v
    case IntField(i) => i as real
    case FloatField(x) => x
    case BoolField(b) => if b then 1.0 else 0.0
  }

  /** Python truthiness of a field value. */
  predicate Truthy(v: Field)
  {
    match v
    case IntField(i) => i != 0
    case FloatField(x) => x != 0.0
    case BoolField(b) => b
  }

  /* ------------------------------------------------------------------ */
  /* Identifier codec                                                    */
  /* ------------------------------------------------------------------ */

  /** parse_j1939_id over any int, negative ones included (`>>` floors, `&` keeps the low bits). */
  function ParseJ1939Id(canId: int): (p: ParsedId)
    ensures 0 <= p.priority < 8 && 0 <= p.sourceAddress < 0x100
    ensures 0 <= p.destinationAddress < 0x100 && 0 <= p.pgn < 0x1_0000
  {
    var priority := canId / 0x400_0000 % 8;
    var pf := canId / 0x1_0000 % 0x100;
    var ps := canId / 0x100 % 0x100;
    var sa := canId % 0x100;
    if pf < Pdu2Threshold then
      ParsedId(priority, pf * 0x100, sa, ps, true)
    else
      OrAdd(pf * 0x100, pf, ps, 0x100);
      ParsedId(priority, Or(pf * 0x100, ps), sa, SaGlobal, false)
  }

  /**
   * build_j1939_id: the priority is masked to three bits and PF taken from
   * the PGN, but the source and destination addresses are ORed in unmasked
   * (negative addresses are not modelled).
   */
  function BuildJ1939Id(pgn: int, sourceAddress: nat, priority: int, destination: nat): (id: nat)
    ensures id >= sourceAddress
  {
    var pf := pgn / 0x100 % 0x100;
    var ps := pgn % 0x100;
    var field := if pf < Pdu2Threshold then destination else ps;
    var high := Or(Or(priority % 8 * 0x400_0000, pf * 0x1_0000), field * 0x100);
    OrAtLeast(high, sourceAddress);
    Or(high, sourceAddress)
  }

  /** With byte addresses the Python builder computes what the C builder computes. */
  lemma BuildAgrees(pgn: int, sourceAddress: Byte, priority: int, destination: Byte)
    ensures BuildJ1939Id(pgn, sourceAddress, priority, destination) ==
      C.BuildId(pgn % 0x1_0000_0000, sourceAddress, priority % 8, destination)
  {
    PgnLowBytes(pgn);
    assert priority % 8 % 8 == priority % 8;
  }

  /** The two low bytes of a PGN survive reduction modulo 2^32. */
  lemma PgnLowBytes(pgn: int)
    ensures pgn % 0x1_0000_0000 / 0x100 % 0x100 == pgn / 0x100 % 0x100
    ensures pgn % 0x1_0000_0000 % 0x100 == pgn % 0x100
  {
    var q, r := pgn / 0x1_0000_0000, pgn % 0x1_0000_0000;
    var hi, lo := r / 0x100, r % 0x100;
    assert r == hi * 0x100 + lo;
    DivModUnique(pgn, q * 0x100_0000 + hi, lo, 0x100);
    DivModUnique(r, hi, lo, 0x100);
    DivModAdd(q * 0x1_0000, hi, 0x100);
    assert q * 0x1_0000 * 0x100 == q * 0x100_0000;
  }

  /** On every C input the two parsers agree. */
  lemma ParseAgrees(canId: U32)
    ensures ParseJ1939Id(canId) == C.ParseId(canId)
  {
  }

  /** Bits 29 and up of a Python int do not reach any parsed field. */
  lemma ParseIgnoresHighBits(canId: int)
    ensures ParseJ1939Id(canId) == ParseJ1939Id(canId % 0x2000_0000)
  {
    var q, r := canId / 0x2000_0000, canId % 0x2000_0000;
    assert canId == q * 8 * 0x400_0000 + r;
    HighBitsField(canId, q, r, 8, 0x400_0000, 8);
    HighBitsField(canId, q, r, 0x2000, 0x1_0000, 0x100);
    HighBitsField(canId, q, r, 0x20_0000, 0x100, 0x100);
    HighBitsField(canId, q, r, 0x2000_0000, 1, 0x100);
  }

  /**
   * The Python round trip: for byte addresses and a 16-bit PGN the parsed
   * fields are those of the C round trip, the priority masked to three bits.
   */
  lemma ParseBuild(pgn: U16, sourceAddress: Byte, priority: int, destination: Byte)
    ensures ParseJ1939Id(BuildJ1939Id(pgn, sourceAddress, priority, destination)) ==
      if pgn / 0x100 < Pdu2Threshold then
        ParsedId(priority % 8, pgn / 0x100 * 0x100, sourceAddress, destination, true)
      else
        ParsedId(priority % 8, pgn, sourceAddress, SaGlobal, false)
  {
    var pri := priority % 8;
    assert pri % 8 == pri;
    var id := BuildJ1939Id(pgn, sourceAddress, priority, destination);
    BuildAgrees(pgn, sourceAddress, priority, destination);
    assert pgn % 0x1_0000_0000 == pgn;
    var cId := C.BuildId(pgn, sourceAddress, pri, destination);
    assert id == cId;
    ParseAgrees(cId);
    C.ParseBuild(pgn, sourceAddress, pri, destination);
    assert ParseJ1939Id(id) == C.ParseId(cId);
  }

  /** With byte addresses the identifier fits in 29 bits. */
  lemma BuildFits(pgn: int, sourceAddress: Byte, priority: int, destination: Byte)
    ensures BuildJ1939Id(pgn, sourceAddress, priority, destination) < 0x2000_0000
  {
    BuildAgrees(pgn, sourceAddress, priority, destination);
  }

  /** An unmasked source address of 2^29 or more lifts the identifier out of 29 bits. */
  lemma BuildWideSource(pgn: int, sourceAddress: nat, priority: int, destination: nat)
    requires sourceAddress >= 0x2000_0000
    ensures BuildJ1939Id(pgn, sourceAddress, priority, destination) >= 0x2000_0000
  {
  }

  /**
   * An unmasked destination leaks into PF: for a PDU1 PGN whose PF is even
   * (a Request, PF 0xEA, say), destination 0x100 + d yields a frame that
   * parses as the next PGN up, addressed to d.
   */
  lemma BuildWideDestination(pf: nat, sourceAddress: Byte, priority: int, d: Byte)
    requires pf + 1 < Pdu2Threshold && pf % 2 == 0
    ensures var p := ParseJ1939Id(BuildJ1939Id(pf * 0x100, sourceAddress, priority, 0x100 + d));
      p.pgn == (pf + 1) * 0x100 && p.destinationAddress == d && p.sourceAddress == sourceAddress
  {
    var pri, next := priority % 8, pf + 1;
    var id := BuildJ1939Id(pf * 0x100, sourceAddress, priority, 0x100 + d);
    WideDestinationSum(pf, sourceAddress, priority, d);
    ParseAgrees(id);
    C.ParseFields(id, pri, next, d, sourceAddress);
  }

  /** The identifier of that frame: the carry of the destination lands in PF's clear bit 0. */
  lemma WideDestinationSum(pf: nat, sourceAddress: Byte, priority: int, d: Byte)
    requires pf + 1 < Pdu2Threshold && pf % 2 == 0
    ensures BuildJ1939Id(pf * 0x100, sourceAddress, priority, 0x100 + d) ==
      priority % 8 * 0x400_0000 + (pf + 1) * 0x1_0000 + d * 0x100 + sourceAddress
  {
    var pri := priority % 8;
    var pgn := pf * 0x100;
    assert pgn / 0x100 % 0x100 == pf && pgn % 0x100 == 0;
    var top := pri * 0x400_0000;
    OrAdd(top, pri * 4, pf * 0x1_0000, 0x100_0000);
    var withPf := Or(top, pf * 0x1_0000);
    var field := (0x100 + d) * 0x100;
    OrAdd(withPf, pri * 0x200 + pf / 2, field, 0x2_0000);
    var withPs := Or(withPf, field);
    var next := pf + 1;
    OrAdd(withPs, pri * 0x4_0000 + next * 0x100 + d, sourceAddress, 0x100);
  }

  /* ------------------------------------------------------------------ */
  /* PGN name registry                                                   */
  /* ------------------------------------------------------------------ */

  datatype PgnInfo = PgnInfo(name: string, length: nat)

  /** PGN_DATABASE. */
  const PgnDatabase: map<int, PgnInfo> := map[
    0xEA00 := PgnInfo("Request", 3),
    0xEE00 := PgnInfo("Address Claimed", 8),
    0xF004 := PgnInfo("Electronic Engine Controller 1 (EEC1)", 8),
    0xF003 := PgnInfo("Electronic Transmission Controller 1 (ETC1)", 8),
    0xF000 := PgnInfo("Proprietary Transmission Status", 8),
    0xFEEE := PgnInfo("Engine Temperature 1 (ET1)", 8),
    0xFEF2 := PgnInfo("Fuel Economy (FE)", 8),
    0xFECA := PgnInfo("DM1 - Active Diagnostic Trouble Codes", 8),
    0xFECB := PgnInfo("DM2 - Previously Active DTCs", 8),
    0xEF00 := PgnInfo("Engine Control Command (Proprietary B)", 8)
  ]

  /** get_pgn_name: the registry's name, or "Unknown (0x%04X)" for an unlisted PGN. */
  function GetPgnName(pgn: int): (name: string)
  {
    if pgn in PgnDatabase then PgnDatabase[pgn].name else "Unknown (0x" + Format04X(pgn) + ")"
  }

  /** Every entry of the C table is in the Python dict, with the same name and length. */
  lemma RegistriesAgree()
    ensures forall i :: 0 <= i < |C.PgnDatabase| ==>
      C.PgnDatabase[i].pgn in PgnDatabase &&
      PgnDatabase[C.PgnDatabase[i].pgn] == PgnInfo(C.PgnDatabase[i].name, C.PgnDatabase[i].length)
  {
    forall i | 0 <= i < |C.PgnDatabase|
      ensures C.PgnDatabase[i].pgn in PgnDatabase
      ensures PgnDatabase[C.PgnDatabase[i].pgn] == PgnInfo(C.PgnDatabase[i].name, C.PgnDatabase[i].length)
    {
      if i < 5 {
        assert i == 0 || i == 1 || i == 2 || i == 3 || i == 4;
      } else {
        assert i == 5 || i == 6 || i == 7 || i == 8 || i == 9;
      }
    }
  }

  /** The Python dict lists no PGN the C table lacks. */
  lemma RegistryCovered()
    ensures forall pgn :: pgn in PgnDatabase ==> exists i :: 0 <= i < |C.PgnDatabase| && C.PgnDatabase[i].pgn == pgn
  {
    var pgns := [PgnRequest, PgnAddressClaimed, PgnEec1, PgnEtc1, PgnPropTransStatus,
                 PgnEt1, PgnFe, PgnDm1, PgnDm2, PgnEngineControlCmd];
    assert forall i :: 0 <= i < |C.PgnDatabase| ==> C.PgnDatabase[i].pgn == pgns[i];
    forall pgn | pgn in PgnDatabase
      ensures exists i :: 0 <= i < |C.PgnDatabase| && C.PgnDatabase[i].pgn == pgn
    {
      assert pgn in pgns;
    }
  }

  /**
   * Both SDKs name a listed PGN alike; an unlisted one is "Unknown" in C and
   * "Unknown (0x....)" in Python, whose hexadecimal reads back to the PGN.
   */
  lemma GetPgnNameAgrees(pgn: U32)
    ensures pgn in PgnDatabase ==> GetPgnName(pgn) == C.GetPgnName(pgn)
    ensures pgn !in PgnDatabase ==> (C.GetPgnName(pgn) == "Unknown" &&
      GetPgnName(pgn) == "Unknown (0x" + Format04X(pgn) + ")" &&
      ReadSigned(GetPgnName(pgn)[11..|GetPgnName(pgn)| - 1], 16) == pgn)
  {
    RegistriesAgree();
    RegistryCovered();
    C.GetPgnNameSpec(pgn);
    if pgn !in PgnDatabase {
      var name := GetPgnName(pgn);
      assert name[11..|name| - 1] == Format04X(pgn);
      Format04XRoundTrip(pgn);
    }
  }

  /** Two unlisted PGNs never share a name. */
  lemma UnknownNamesDistinct(p: int, q: int)
    requires p !in PgnDatabase && q !in PgnDatabase && GetPgnName(p) == GetPgnName(q)
    ensures p == q
  {
    var n := GetPgnName(p);
    assert n[11..|n| - 1] == Format04X(p);
    assert GetPgnName(q)[11..|n| - 1] == Format04X(q);
    Format04XInjective(p, q);
  }

  /* ------------------------------------------------------------------ */
  /* Signal decoding                                                     */
  /* ------------------------------------------------------------------ */

  /**
   * decode_spns: the same length-guarded rules as the C SDK, into a dict;
   * Request gives its PGN as "0x%04X" text and Engine Control also reports
   * the fault flags when byte 3 is present and not 0xFF.
   */
  function DecodeSpns(pgn: int, data: seq<Byte>): (spns: map<string, PyValue>)
    ensures data == [] ==> spns == map[]
    ensures !(pgn in {PgnEec1, PgnEt1, PgnEtc1, PgnPropTransStatus, PgnRequest, PgnEngineControlCmd, PgnDm1})
      ==> spns == map[]
  {
    var len := |data|;
    if pgn == PgnEec1 then
      var speed := if len >= 5 then map["engineSpeed" := FloatVal(Le16(data[3], data[4]) as real * 0.125)] else map[];
      if len >= 3 then speed["torque" := IntVal(data[2] as int - 125)] else speed
    else if pgn == PgnEt1 then
      if len >= 1 then map["coolantTemp" := IntVal(data[0] as int - 40)] else map[]
    else if pgn == PgnEtc1 || pgn == PgnPropTransStatus then
      var speed := if len >= 2 then map["outputShaftSpeed" := FloatVal(Le16(data[0], data[1]) as real * 0.125)] else map[];
      if len >= 5 then speed["gear" := IntVal(data[4])] else speed
    else if pgn == PgnRequest then
      if len >= 3 then map["requestedPGN" := StrVal("0x" + Format04X(Le24(data[0], data[1], data[2])))] else map[]
    else if pgn == PgnEngineControlCmd then
      if len >= 3 then
        var cmd := map["targetRpm" := IntVal(Le16(data[0], data[1])), "enable" := BoolVal(data[2] == 1)];
        if len >= 4 && data[3] != 0xFF then
          cmd["faultFlags" := IntVal(data[3])]["overheat" := BoolVal(data[3] % 2 == 1)]
        else cmd
      else map[]
    else if pgn == PgnDm1 then
      if len >= 5 then
        map["lampStatus" := IntVal(data[0]),
            "spn" := IntVal(C.Dm1Spn(data[2], data[3], data[4])),
            "fmi" := IntVal(data[4] % 0x20)]
      else map[]
    else
      map[]
  }

  /** A C signal value as the Python value of the same kind. */
  function FromCValue(v: C.SpnValue): (p: PyValue)
  {
    match v
    case IntValue(i) => IntVal(i)
    case FloatValue(x) => FloatVal(x)
    case BoolValue(b) => BoolVal(b)
  }

  /** The dict built by inserting the C signals in order. */
  function FromC(spns: seq<C.Spn>): (spnMap: map<string, PyValue>)
  {
    if spns == [] then map[]
    else FromC(spns[..|spns| - 1])[spns[|spns| - 1].name := FromCValue(spns[|spns| - 1].value)]
  }

  /** FromC of up to three signals, entry by entry. */
  lemma FromCSmall(spns: seq<C.Spn>)
    requires |spns| <= 3
    ensures |spns| == 0 ==> FromC(spns) == map[]
    ensures |spns| == 1 ==> FromC(spns) == map[spns[0].name := FromCValue(spns[0].value)]
    ensures |spns| == 2 ==> (FromC(spns) ==
      map[spns[0].name := FromCValue(spns[0].value)][spns[1].name := FromCValue(spns[1].value)])
    ensures |spns| == 3 ==> (FromC(spns) ==
      map[spns[0].name := FromCValue(spns[0].value)][spns[1].name := FromCValue(spns[1].value)]
        [spns[2].name := FromCValue(spns[2].value)])
  {
    if |spns| >= 1 {
      assert spns[..1][..0] == [];
    }
    if |spns| >= 2 {
      assert spns[..2][..1] == spns[..1];
    }
    if |spns| == 3 {
      assert spns[..2] == spns[..|spns| - 1];
    }
  }

  /**
   * For EEC1, ET1, ETC1, 0xF000, DM1 and every unhandled PGN the Python dict
   * holds exactly the C signals.
   */
  lemma DecodeAgreesWithC(pgn: int, data: seq<Byte>)
    requires pgn != PgnRequest && pgn != PgnEngineControlCmd
    ensures DecodeSpns(pgn, data) == FromC(C.DecodeSpns(pgn, data))
  {
    FromCSmall(C.DecodeSpns(pgn, data));
  }

  /**
   * Request is where the SDKs differ first: Python renders the C
   * requestedPGN as "0x%04X" text, and both decode nothing from a short
   * payload.
   */
  lemma RequestDiffersFromC(data: seq<Byte>)
    ensures C.DecodeSpns(PgnRequest, data) == [] <==> DecodeSpns(PgnRequest, data) == map[]
    ensures forall n :: C.DecodeSpns(PgnRequest, data) == [C.Spn("requestedPGN", C.IntValue(n))] ==>
      DecodeSpns(PgnRequest, data) == map["requestedPGN" := StrVal("0x" + Format04X(n))]
  {
    if |data| >= 3 {
      assert DecodeSpns(PgnRequest, data) != map[] by {
        assert "requestedPGN" in DecodeSpns(PgnRequest, data);
      }
    }
  }

  /**
   * Engine Control is where they differ second: Python adds faultFlags and
   * overheat to the C signals when byte 3 is present and not 0xFF.
   */
  lemma EngineControlDiffersFromC(data: seq<Byte>)
    ensures |data| >= 3 ==>
      var c := FromC(C.DecodeSpns(PgnEngineControlCmd, data));
      DecodeSpns(PgnEngineControlCmd, data) ==
        if |data| >= 4 && data[3] != 0xFF then
          c["faultFlags" := IntVal(data[3])]["overheat" := BoolVal(data[3] % 2 == 1)]
        else c
    ensures |data| < 3 ==> C.DecodeSpns(PgnEngineControlCmd, data) == [] && DecodeSpns(PgnEngineControlCmd, data) == map[]
  {
    FromCSmall(C.DecodeSpns(PgnEngineControlCmd, data));
  }

  /* ------------------------------------------------------------------ */
  /* Encoding                                                            */
  /* ------------------------------------------------------------------ */

  /**
   * What encode_pgn_data returns. Request gives three little-endian bytes of
   * requestedPGN; Engine Control, EEC1 and ET1 fill their bytes of an
   * eight-byte 0xFF buffer; any other PGN gets eight 0xFF bytes. A value
   * stored outside 0-255 raises ValueError and a float requestedPGN TypeError.
   */
  function PgnPayload(pgn: int, data: map<string, Field>): (r: Result<seq<Byte>>)
    ensures r.Success? ==> |r.value| == if pgn == PgnRequest then 3 else 8
    ensures r.Failure? ==> r.error in {ByteRangeError, FloatAndError}
    ensures !(pgn in {PgnRequest, PgnEngineControlCmd, PgnEec1, PgnEt1}) ==>
      r == Success(seq(8, _ => 0xFF))
  {
    if pgn == PgnRequest then
      var req := Get(data, "requestedPGN", IntField(0));
      if req.FloatField? then Failure(FloatAndError)
      else
        var p := IntOf(req);
        Success([p % 0x100, p / 0x100 % 0x100, p / 0x1_0000 % 0x100])
    else if pgn == PgnEngineControlCmd then
      var rpm := IntOf(Get(data, "targetRpm", IntField(0)));
      var enable: Byte := if Truthy(Get(data, "enable", BoolField(false))) then 1 else 0;
      var flags := IntOf(Get(data, "faultFlags", IntField(0)));
      if !(0 <= flags < 0x100) then Failure(ByteRangeError)
      else Success([rpm % 0x100, rpm / 0x100 % 0x100, enable, flags, 0xFF, 0xFF, 0xFF, 0xFF])
    else if pgn == PgnEec1 then
      var scaled := Trunc(RealOf(Get(data, "engineSpeed", IntField(0))) * 8.0);
      var torque := IntOf(Get(data, "torque", IntField(0))) + 125;
      if !(0 <= torque < 0x100) then Failure(ByteRangeError)
      else Success([0xF0, 0xFF, torque, scaled % 0x100, scaled / 0x100 % 0x100, 0xFF, 0xFF, 0xFF])
    else if pgn == PgnEt1 then
      var coolant := IntOf(Get(data, "coolantTemp", IntField(0))) + 40;
      if !(0 <= coolant < 0x100) then Failure(ByteRangeError)
      else Success([coolant, 0xFF, 0xFF, 0xFF, 0xFF, 0xFF, 0xFF, 0xFF])
    else
      Success(seq(8, _ => 0xFF))
  }

  /** `buffer[i] = value` on a bytearray: ValueError unless 0 <= value < 256. */
  method Store(buffer: array<Byte>, i: nat, value: int) returns (err: Option<PyError>)
    requires i < buffer.Length
    modifies buffer
    ensures err == None <==> 0 <= value < 0x100
    ensures err != None ==> err == Some(ByteRangeError) && buffer[..] == old(buffer[..])
    ensures err == None ==> buffer[..] == old(buffer[..])[i := value]
  {
    if 0 <= value < 0x100 {
      buffer[i] := value;
      return None;
    }
    err := Some(ByteRangeError);
  }

  /** encode_pgn_data: fills a 0xFF bytearray in place, then returns it (or its first three bytes). */
  method EncodePgnData(pgn: int, data: map<string, Field>) returns (r: Result<seq<Byte>>)
    ensures r == PgnPayload(pgn, data)
  {
    var result := new Byte[8](_ => 0xFF);
    if pgn == PgnRequest {
      var req := Get(data, "requestedPGN", IntField(0));
      if req.FloatField? {
        return Failure(FloatAndError);
      }
      r := FillRequest(result, IntOf(req));
    } else if pgn == PgnEngineControlCmd {
      var rpm := IntOf(Get(data, "targetRpm", IntField(0)));
      var enable: Byte := if Truthy(Get(data, "enable", BoolField(false))) then 1 else 0;
      r := FillEngineControl(result, rpm, enable, IntOf(Get(data, "faultFlags", IntField(0))));
    } else if pgn == PgnEec1 {
      var scaled := Trunc(RealOf(Get(data, "engineSpeed", IntField(0))) * 8.0);
      r := FillEec1(result, scaled, IntOf(Get(data, "torque", IntField(0))) + 125);
    } else if pgn == PgnEt1 {
      r := FillEt1(result, IntOf(Get(data, "coolantTemp", IntField(0))) + 40);
    } else {
      assert result[..] == seq(8, _ => 0xFF);
      r := Success(result[..]);
    }
  }

  /** The Request branch: the three low bytes of the PGN, little-endian. */
  method FillRequest(buffer: array<Byte>, p: int) returns (r: Result<seq<Byte>>)
    requires buffer.Length == 8 && buffer[..] == seq(8, _ => 0xFF)
    modifies buffer
    ensures r == Success([p % 0x100, p / 0x100 % 0x100, p / 0x1_0000 % 0x100])
  {
    buffer[0] := p % 0x100;
    buffer[1] := p / 0x100 % 0x100;
    buffer[2] := p / 0x1_0000 % 0x100;
    assert buffer[..3] == [p % 0x100, p / 0x100 % 0x100, p / 0x1_0000 % 0x100];
    return Success(buffer[..3]);
  }

  /** The Engine Control branch: target RPM, enable flag, then the checked fault-flag byte. */
  method FillEngineControl(buffer: array<Byte>, rpm: int, enable: Byte, flags: int) returns (r: Result<seq<Byte>>)
    requires buffer.Length == 8 && buffer[..] == seq(8, _ => 0xFF)
    modifies buffer
    ensures r == if 0 <= flags < 0x100 then Success([rpm % 0x100, rpm / 0x100 % 0x100, enable, flags, 0xFF, 0xFF, 0xFF, 0xFF])
      else Failure(ByteRangeError)
  {
    buffer[0] := rpm % 0x100;
    buffer[1] := rpm / 0x100 % 0x100;
    buffer[2] := enable;
    var err := Store(buffer, 3, flags);
    if err.Some? {
      return Failure(err.value);
    }
    buffer[4] := 0xFF;
    buffer[5] := 0xFF;
    buffer[6] := 0xFF;
    buffer[7] := 0xFF;
    assert buffer[..] == [rpm % 0x100, rpm / 0x100 % 0x100, enable, flags, 0xFF, 0xFF, 0xFF, 0xFF];
    r := Success(buffer[..]);
  }

  /** The EEC1 branch: fixed bytes, the checked torque byte, then the speed in eighths. */
  method FillEec1(buffer: array<Byte>, scaled: int, torque: int) returns (r: Result<seq<Byte>>)
    requires buffer.Length == 8 && buffer[..] == seq(8, _ => 0xFF)
    modifies buffer
    ensures r == if 0 <= torque < 0x100 then Success([0xF0, 0xFF, torque, scaled % 0x100, scaled / 0x100 % 0x100, 0xFF, 0xFF, 0xFF])
      else Failure(ByteRangeError)
  {
    buffer[0] := 0xF0;
    buffer[1] := 0xFF;
    var err := Store(buffer, 2, torque);
    if err.Some? {
      return Failure(err.value);
    }
    buffer[3] := scaled % 0x100;
    buffer[4] := scaled / 0x100 % 0x100;
    assert buffer[..] == [0xF0, 0xFF, torque, scaled % 0x100, scaled / 0x100 % 0x100, 0xFF, 0xFF, 0xFF];
    r := Success(buffer[..]);
  }

  /** The ET1 branch: the checked coolant byte. */
  method FillEt1(buffer: array<Byte>, coolant: int) returns (r: Result<seq<Byte>>)
    requires buffer.Length == 8 && buffer[..] == seq(8, _ => 0xFF)
    modifies buffer
    ensures r == if 0 <= coolant < 0x100 then Success([coolant, 0xFF, 0xFF, 0xFF, 0xFF, 0xFF, 0xFF, 0xFF])
      else Failure(ByteRangeError)
  {
    var err := Store(buffer, 0, coolant);
    if err.Some? {
      return Failure(err.value);
    }
    assert buffer[..] == [coolant, 0xFF, 0xFF, 0xFF, 0xFF, 0xFF, 0xFF, 0xFF];
    r := Success(buffer[..]);
  }

  /**
   * Engine Control round trip: a target RPM that fits 16 bits and the
   * enable flag come back; so do fault flags other than 0xFF (0 when none
   * was given), with overheat as their bit 0.
   */
  lemma EngineControlRoundTrip(data: map<string, Field>)
    requires 0 <= IntOf(Get(data, "targetRpm", IntField(0))) <= 0xFFFF
    requires 0 <= IntOf(Get(data, "faultFlags", IntField(0))) <= 0xFF
    ensures PgnPayload(PgnEngineControlCmd, data).Success?
    ensures var flags := IntOf(Get(data, "faultFlags", IntField(0)));
      var command := map["targetRpm" := IntVal(IntOf(Get(data, "targetRpm", IntField(0)))),
                         "enable" := BoolVal(Truthy(Get(data, "enable", BoolField(false))))];
      DecodeSpns(PgnEngineControlCmd, PgnPayload(PgnEngineControlCmd, data).value) ==
        if flags != 0xFF then command["faultFlags" := IntVal(flags)]["overheat" := BoolVal(flags % 2 == 1)]
        else command
  {
    var rpm := IntOf(Get(data, "targetRpm", IntField(0)));
    var enable: Byte := if Truthy(Get(data, "enable", BoolField(false))) then 1 else 0;
    var flags := IntOf(Get(data, "faultFlags", IntField(0)));
    var payload := [rpm % 0x100, rpm / 0x100 % 0x100, enable, flags, 0xFF, 0xFF, 0xFF, 0xFF];
    assert PgnPayload(PgnEngineControlCmd, data) == Success(payload);
    assert Le16(payload[0], payload[1]) == rpm;
  }

  /** ET1 round trip: a coolant temperature in -40..215 comes back; any other raises ValueError. */
  lemma Et1RoundTrip(data: map<string, Field>)
    ensures var t := IntOf(Get(data, "coolantTemp", IntField(0)));
      if -40 <= t <= 215 then
        PgnPayload(PgnEt1, data).Success? &&
        DecodeSpns(PgnEt1, PgnPayload(PgnEt1, data).value) == map["coolantTemp" := IntVal(t)]
      else PgnPayload(PgnEt1, data) == Failure(ByteRangeError)
  {
  }

  /**
   * EEC1 round trip: a torque in -125..130 comes back, and the engine speed
   * comes back as its eighths truncated toward zero and reduced to 16 bits;
   * any other torque raises ValueError.
   */
  lemma Eec1RoundTrip(data: map<string, Field>)
    ensures var q := IntOf(Get(data, "torque", IntField(0)));
      var scaled := Trunc(RealOf(Get(data, "engineSpeed", IntField(0))) * 8.0);
      if -125 <= q <= 130 then
        PgnPayload(PgnEec1, data).Success? &&
        DecodeSpns(PgnEec1, PgnPayload(PgnEec1, data).value) ==
          map["engineSpeed" := FloatVal((scaled % 0x1_0000) as real * 0.125), "torque" := IntVal(q)]
      else PgnPayload(PgnEec1, data) == Failure(ByteRangeError)
  {
    var q := IntOf(Get(data, "torque", IntField(0)));
    var scaled := Trunc(RealOf(Get(data, "engineSpeed", IntField(0))) * 8.0);
    if -125 <= q <= 130 {
      var payload: seq<Byte> := [0xF0, 0xFF, q + 125, scaled % 0x100, scaled / 0x100 % 0x100, 0xFF, 0xFF, 0xFF];
      assert PgnPayload(PgnEec1, data) == Success(payload);
      TwoBytes(scaled);
      assert Le16(payload[3], payload[4]) == scaled % 0x1_0000;
    }
  }

  /** An engine speed in whole eighths up to 0xFFFF / 8 comes back exactly. */
  lemma Eec1SpeedExact(data: map<string, Field>, k: nat)
    requires k <= 0xFFFF && RealOf(Get(data, "engineSpeed", IntField(0))) == k as real / 8.0
    requires -125 <= IntOf(Get(data, "torque", IntField(0))) <= 130
    ensures PgnPayload(PgnEec1, data).Success?
    ensures DecodeSpns(PgnEec1, PgnPayload(PgnEec1, data).value)["engineSpeed"] == FloatVal(k as real / 8.0)
  {
    Eec1RoundTrip(data);
    assert Trunc(RealOf(Get(data, "engineSpeed", IntField(0))) * 8.0) == k;
  }

  /**
   * Request round trip: an int (or bool) requestedPGN comes back as "0x%04X"
   * of its low 24 bits, which the C decoder reads as that number; a float
   * raises TypeError.
   */
  lemma RequestRoundTrip(data: map<string, Field>)
    ensures Get(data, "requestedPGN", IntField(0)).FloatField? ==>
      PgnPayload(PgnRequest, data) == Failure(FloatAndError)
    ensures !Get(data, "requestedPGN", IntField(0)).FloatField? ==>
      var p := IntOf(Get(data, "requestedPGN", IntField(0)));
      PgnPayload(PgnRequest, data).Success? &&
      DecodeSpns(PgnRequest, PgnPayload(PgnRequest, data).value) ==
        map["requestedPGN" := StrVal("0x" + Format04X(p % 0x100_0000))] &&
      C.DecodeSpns(PgnRequest, PgnPayload(PgnRequest, data).value) ==
        [C.Spn("requestedPGN", C.IntValue(p % 0x100_0000))]
  {
    var req := Get(data, "requestedPGN", IntField(0));
    if !req.FloatField? {
      ThreeBytes(IntOf(req));
    }
  }

  /* ------------------------------------------------------------------ */
  /* Frames                                                              */
  /* ------------------------------------------------------------------ */

  /** CANFrame. */
  datatype Frame = Frame(id: int, data: seq<Byte>, timestamp: real, isExtended: bool)

  /** J1939Message. */
  datatype Message = Message(
    pgn: int,
    pgnName: string,
    sourceAddress: int,
    destinationAddress: int,
    priority: int,
    spns: map<string, PyValue>,
    raw: seq<Byte>,
    timestamp: real)

  /**
   * decode_frame: the header from the parsed identifier, the signals of
   * the whole payload, the payload itself, and the frame's timestamp unless
   * it is 0, in which case the clock reading `now`.
   */
  function DecodeFrame(frame: Frame, now: real): (m: Message)
    ensures m.raw == frame.data
    ensures 0 <= m.pgn < 0x1_0000 && 0 <= m.sourceAddress < 0x100 && 0 <= m.priority < 8
    ensures var c := C.ParseId(frame.id % 0x2000_0000);
      m.pgn == c.pgn && m.sourceAddress == c.sourceAddress &&
      m.destinationAddress == c.destinationAddress && m.priority == c.priority
    ensures m.pgnName == GetPgnName(m.pgn) && m.spns == DecodeSpns(m.pgn, frame.data)
    ensures m.timestamp == if frame.timestamp != 0.0 then frame.timestamp else now
  {
    var parsed := ParseJ1939Id(frame.id);
    ParseIgnoresHighBits(frame.id);
    ParseAgrees(frame.id % 0x2000_0000);
    Message(
      parsed.pgn,
      GetPgnName(parsed.pgn),
      parsed.sourceAddress,
      parsed.destinationAddress,
      parsed.priority,
      DecodeSpns(parsed.pgn, frame.data),
      frame.data,
      if frame.timestamp != 0.0 then frame.timestamp else now)
  }

  /** encode_frame: the built identifier and the encoded payload, stamped with the clock reading `now`. */
  method EncodeFrame(pgn: int, data: map<string, Field>, sourceAddress: nat, priority: int, destination: nat, now: real)
    returns (r: Result<Frame>)
    ensures r.Failure? <==> PgnPayload(pgn, data).Failure?
    ensures r.Failure? ==> r.error == PgnPayload(pgn, data).error
    ensures r.Success? ==> r.value == Frame(BuildJ1939Id(pgn, sourceAddress, priority, destination),
      PgnPayload(pgn, data).value, now, true)
  {
    var id := BuildJ1939Id(pgn, sourceAddress, priority, destination);
    var encoded := EncodePgnData(pgn, data);
    if encoded.Failure? {
      return Failure(encoded.error);
    }
    r := Success(Frame(id, encoded.value, now, true));
  }

  /**
   * A frame encoded for a PDU2 PGN, or for a PDU1 PGN with a clear low byte,
   * decodes to the same PGN, its registry name and the sender's address.
   */
  lemma FrameRoundTrip(pgn: U16, data: map<string, Field>, sourceAddress: Byte, priority: int, destination: Byte, now: real)
    requires pgn / 0x100 >= Pdu2Threshold || pgn % 0x100 == 0
    requires PgnPayload(pgn, data).Success?
    ensures var m := DecodeFrame(Frame(BuildJ1939Id(pgn, sourceAddress, priority, destination),
        PgnPayload(pgn, data).value, now, true), 0.0);
      m.pgn == pgn && m.pgnName == GetPgnName(pgn) && m.sourceAddress == sourceAddress &&
      m.priority == priority % 8 &&
      m.destinationAddress == (if pgn / 0x100 < Pdu2Threshold then destination else SaGlobal) &&
      m.spns == DecodeSpns(pgn, PgnPayload(pgn, data).value) && m.timestamp == now
  {
    ParseBuild(pgn, sourceAddress, priority, destination);
    assert pgn / 0x100 < Pdu2Threshold ==> pgn == pgn / 0x100 * 0x100;
  }
}
