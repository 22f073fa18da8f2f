/**
 * The C SDK's codec (e32_codec.c): the 29-bit identifier codec, the PGN name
 * table, the per-PGN signal decoder that fills an `e32_j1939_message_t` in
 * place, and the two encoders that fill an `e32_can_frame_t` in place.
 */
module CCodec {
  import opened Bits
  import opened J1939

  /* ------------------------------------------------------------------ */
  /* Identifier codec                                                    */
  /* ------------------------------------------------------------------ */

  /**
   * Splits an identifier into priority (bits 28-26), PDU format PF (bits
   * 23-16), PDU specific PS (bits 15-8) and source address (bits 7-0).
   * PF < 240 is PDU1: the PGN is PF << 8 and PS is the destination. PF >= 240
   * is PDU2: PS belongs to the PGN and the destination is global (0xFF).
   * Bits 25-24 and 31-29 are not looked at.
   */
  function ParseId(canId: U32): (p: ParsedId)
    ensures 0 <= p.priority < 8 && 0 <= p.sourceAddress < 0x100
    ensures 0 <= p.destinationAddress < 0x100 && 0 <= p.pgn < 0x1_0000
  {
    var priority := canId / 0x400_0000 % 8;
    var pf := canId / 0x1_0000 % 0x100;
    var ps := canId / 0x100 % 0x100;
    var sa := canId % 0x100;
    if pf < Pdu2Threshold then
      ParsedId(priority, pf * 0x100, sa, ps, true)
    else
      OrAdd(pf * 0x100, pf, ps, 0x100);
      ParsedId(priority, Or(pf * 0x100, ps), sa, SaGlobal, false)
  }

  /**
   * Where ParseId takes each field from: priority from bits 28-26, source
   * address from bits 7-0, the PGN's high byte from PF; PDU1 clears the
   * PGN's low byte and takes the destination from PS, PDU2 puts PS in the
   * PGN and answers the global address.
   */
  lemma ParseIdSpec(canId: U32)
    ensures var p := ParseId(canId);
      p.priority == canId / 0x400_0000 % 8 && p.sourceAddress == canId % 0x100 &&
      (p.pdu1 <==> p.pgn / 0x100 < Pdu2Threshold) &&
      p.pgn / 0x100 == canId / 0x1_0000 % 0x100 &&
      (p.pdu1 ==> p.pgn % 0x100 == 0 && p.destinationAddress == canId / 0x100 % 0x100) &&
      (!p.pdu1 ==> p.pgn % 0x100 == canId / 0x100 % 0x100 && p.destinationAddress == SaGlobal)
  {
    var pf := canId / 0x1_0000 % 0x100;
    var ps := canId / 0x100 % 0x100;
    if pf < Pdu2Threshold {
      DivModUnique(pf * 0x100, pf, 0, 0x100);
    } else {
      OrAdd(pf * 0x100, pf, ps, 0x100);
      DivModUnique(pf * 0x100 + ps, pf, ps, 0x100);
    }
  }

  /**
   * Builds an identifier: priority masked to three bits, PF taken from the
   * PGN's high byte, and PS taken from the destination for PDU1 PGNs but
   * from the PGN's own low byte for PDU2 PGNs.
   */
  function BuildId(pgn: U32, sourceAddress: Byte, priority: Byte, destination: Byte): (id: nat)
    ensures id < 0x2000_0000
  {
    var pf := pgn / 0x100 % 0x100;
    var ps := pgn % 0x100;
    var field := if pf < Pdu2Threshold then destination else ps;
    var pri := priority % 8;
    IdOr(pri, pf, field, sourceAddress);
    Or(Or(Or(pri * 0x400_0000, pf * 0x1_0000), field * 0x100), sourceAddress)
  }

  /**
   * Where BuildId puts each field: the identifier is the sum of the masked
   * priority at bit 26, PF at bit 16, the destination (PDU1) or the PGN's
   * low byte (PDU2) at bit 8 and the source address (IdLayout reads each
   * back from its bits).
   */
  lemma BuildIdSpec(pgn: U32, sourceAddress: Byte, priority: Byte, destination: Byte)
    ensures var field := if pgn / 0x100 % 0x100 < Pdu2Threshold then destination else pgn % 0x100;
      BuildId(pgn, sourceAddress, priority, destination) ==
        priority % 8 * 0x400_0000 + pgn / 0x100 % 0x100 * 0x1_0000 + field * 0x100 + sourceAddress
  {
    var pf := pgn / 0x100 % 0x100;
    var field := if pf < Pdu2Threshold then destination else pgn % 0x100;
    IdOr(priority % 8, pf, field, sourceAddress);
  }

  /** The three ORs of an identifier join disjoint fields, so they add. */
  lemma IdOr(pri: nat, pf: nat, ps: nat, sa: nat)
    requires pri < 8 && pf < 0x100 && ps < 0x100 && sa < 0x100
    ensures Or(Or(Or(pri * 0x400_0000, pf * 0x1_0000), ps * 0x100), sa) ==
      pri * 0x400_0000 + pf * 0x1_0000 + ps * 0x100 + sa
  {
    var top := pri * 0x400_0000;
    OrAdd(top, pri * 4, pf * 0x1_0000, 0x100_0000);
    var withPf := Or(top, pf * 0x1_0000);
    OrAdd(withPf, pri * 0x400 + pf, ps * 0x100, 0x1_0000);
    var withPs := Or(withPf, ps * 0x100);
    OrAdd(withPs, pri * 0x4_0000 + pf * 0x100 + ps, sa, 0x100);
    assert Or(withPs, sa) == withPs + sa;
  }

  /** Where the four fields of an identifier sit. */
  lemma IdLayout(pri: nat, pf: nat, ps: nat, sa: nat)
    requires pri < 8 && pf < 0x100 && ps < 0x100 && sa < 0x100
    ensures var id := pri * 0x400_0000 + pf * 0x1_0000 + ps * 0x100 + sa;
      id < 0x2000_0000 && id / 0x400_0000 == pri && id / 0x100_0000 % 4 == 0 &&
      id / 0x1_0000 % 0x100 == pf && id / 0x100 % 0x100 == ps && id % 0x100 == sa
  {
    var low := ps * 0x100 + sa;
    assert low < 0x1_0000;
    var id := pri * 0x400_0000 + pf * 0x1_0000 + low;
    assert id / 0x1_0000 == pri * 0x400 + pf;
    assert id / 0x100 == pri * 0x4_0000 + pf * 0x100 + ps;
    assert id / 0x100_0000 == pri * 4;
  }

  /**
   * Parsing a built identifier gives back the PGN, the source address and
   * the masked priority; a PDU1 PGN comes back with its low byte cleared and
   * the destination that was passed, a PDU2 PGN comes back whole with the
   * global destination.
   */
  lemma ParseBuild(pgn: U16, sourceAddress: Byte, priority: Byte, destination: Byte)
    ensures ParseId(BuildId(pgn, sourceAddress, priority, destination)) ==
      if pgn / 0x100 < Pdu2Threshold then
        ParsedId(priority % 8, pgn / 0x100 * 0x100, sourceAddress, destination, true)
      else
        ParsedId(priority % 8, pgn, sourceAddress, SaGlobal, false)
  {
    var pf, ps := pgn / 0x100, pgn % 0x100;
    assert pgn / 0x100 % 0x100 == pf;
    var field := if pf < Pdu2Threshold then destination else ps;
    var id := BuildId(pgn, sourceAddress, priority, destination);
    BuildIdSpec(pgn, sourceAddress, priority, destination);
    ParseFields(id, priority % 8, pf, field, sourceAddress);
    if pf >= Pdu2Threshold {
      assert pf * 0x100 + ps == pgn;
    }
  }

  /** The parse of the identifier with the given four fields. */
  lemma ParseFields(id: U32, pri: nat, pf: nat, ps: nat, sa: nat)
    requires pri < 8 && pf < 0x100 && ps < 0x100 && sa < 0x100
    requires id == pri * 0x400_0000 + pf * 0x1_0000 + ps * 0x100 + sa
    ensures ParseId(id) ==
      if pf < Pdu2Threshold then ParsedId(pri, pf * 0x100, sa, ps, true)
      else ParsedId(pri, pf * 0x100 + ps, sa, SaGlobal, false)
  {
    DivModUnique(id, pri, pf * 0x1_0000 + ps * 0x100 + sa, 0x400_0000);
    DivModUnique(id, pri * 0x400 + pf, ps * 0x100 + sa, 0x1_0000);
    DivModUnique(pri * 0x400 + pf, pri * 4, pf, 0x100);
    DivModUnique(id, pri * 0x4_0000 + pf * 0x100 + ps, sa, 0x100);
    DivModUnique(pri * 0x4_0000 + pf * 0x100 + ps, pri * 0x400 + pf, ps, 0x100);
    assert id / 0x400_0000 % 8 == pri;
    assert id / 0x1_0000 % 0x100 == pf;
    assert id / 0x100 % 0x100 == ps;
    assert id % 0x100 == sa;
    OrAdd(pf * 0x100, pf, ps, 0x100);
  }

  /**
   * Every identifier below 2^29 whose two data-page bits are clear is
   * rebuilt exactly from its parsed fields.
   */
  lemma BuildParse(canId: U32)
    requires canId < 0x2000_0000 && canId / 0x100_0000 % 4 == 0
    ensures var p := ParseId(canId);
      BuildId(p.pgn, p.sourceAddress, p.priority, p.destinationAddress) == canId
  {
    var pri, pf, ps, sa := canId / 0x400_0000, canId / 0x1_0000 % 0x100, canId / 0x100 % 0x100, canId % 0x100;
    Split(canId);
    assert canId == pri * 0x400_0000 + pf * 0x1_0000 + ps * 0x100 + sa;
    ParseFields(canId, pri, pf, ps, sa);
    var p := ParseId(canId);
    assert p.priority == pri && p.sourceAddress == sa;
    if pf < Pdu2Threshold {
      assert p.pgn == pf * 0x100 && p.destinationAddress == ps;
      DivModUnique(p.pgn, pf, 0, 0x100);
    } else {
      assert p.pgn == pf * 0x100 + ps;
      DivModUnique(p.pgn, pf, ps, 0x100);
    }
    assert p.pgn / 0x100 % 0x100 == pf;
    BuildIdSpec(p.pgn, p.sourceAddress, p.priority, p.destinationAddress);
  }

  /** An identifier below 2^29 with clear data-page bits is the sum of its four fields. */
  lemma Split(id: nat)
    requires id < 0x2000_0000 && id / 0x100_0000 % 4 == 0
    ensures id == id / 0x400_0000 * 0x400_0000 + id / 0x1_0000 % 0x100 * 0x1_0000 + id / 0x100 % 0x100 * 0x100 + id % 0x100
  {
    assert id / 0x1_0000 == id / 0x1_0000 / 0x100 * 0x100 + id / 0x1_0000 % 0x100;
    assert id / 0x1_0000 / 0x100 == id / 0x100_0000;
    assert id / 0x100_0000 == id / 0x100_0000 / 4 * 4;
    assert id / 0x100_0000 / 4 == id / 0x400_0000;
    assert id / 0x100 == id / 0x100 / 0x100 * 0x100 + id / 0x100 % 0x100;
    assert id / 0x100 / 0x100 == id / 0x1_0000;
  }

  /** For a PDU2 PGN the destination argument does not reach the identifier. */
  lemma BuildIgnoresDestination(pgn: U32, sourceAddress: Byte, priority: Byte, d1: Byte, d2: Byte)
    requires pgn / 0x100 % 0x100 >= Pdu2Threshold
    ensures BuildId(pgn, sourceAddress, priority, d1) == BuildId(pgn, sourceAddress, priority, d2)
  {
  }

  /* ------------------------------------------------------------------ */
  /* PGN name table                                                      */
  /* ------------------------------------------------------------------ */

  datatype PgnEntry = PgnEntry(pgn: nat, name: string, length: nat)

  /** The table in its source order; the C sentinel entry ends the scan and is not an entry. */
  const PgnDatabase: seq<PgnEntry> := [
    PgnEntry(0xEA00, "Request", 3),
    PgnEntry(0xEE00, "Address Claimed", 8),
    PgnEntry(0xF004, "Electronic Engine Controller 1 (EEC1)", 8),
    PgnEntry(0xF003, "Electronic Transmission Controller 1 (ETC1)", 8),
    PgnEntry(0xF000, "Proprietary Transmission Status", 8),
    PgnEntry(0xFEEE, "Engine Temperature 1 (ET1)", 8),
    PgnEntry(0xFEF2, "Fuel Economy (FE)", 8),
    PgnEntry(0xFECA, "DM1 - Active Diagnostic Trouble Codes", 8),
    PgnEntry(0xFECB, "DM2 - Previously Active DTCs", 8),
    PgnEntry(0xEF00, "Engine Control Command (Proprietary B)", 8)
  ]

  /** Linear exact-match scan: the first entry with the PGN wins, "Unknown" when none has it. */
  function FindName(table: seq<PgnEntry>, pgn: int): (name: string)
    ensures (forall i :: 0 <= i < |table| ==> table[i].pgn != pgn) ==> name == "Unknown"
    ensures forall i :: 0 <= i < |table| && table[i].pgn == pgn ==>
      (forall j :: 0 <= j < i ==> table[j].pgn != pgn) ==> name == table[i].name
  {
    if table == [] then "Unknown"
    else if table[0].pgn == pgn then table[0].name
    else
      var rest := FindName(table[1..], pgn);
      assert forall i :: 1 <= i < |table| ==> table[i] == table[1..][i - 1];
      rest
  }

  function GetPgnName(pgn: U32): (name: string)
  {
    FindName(PgnDatabase, pgn)
  }

  /** No two entries of the table share a PGN. */
  lemma PgnDatabaseDistinct()
    ensures forall i, j :: 0 <= i < j < |PgnDatabase| ==> PgnDatabase[i].pgn != PgnDatabase[j].pgn
  {
    var pgns := [PgnRequest, PgnAddressClaimed, PgnEec1, PgnEtc1, PgnPropTransStatus,
                 PgnEt1, PgnFe, PgnDm1, PgnDm2, PgnEngineControlCmd];
    assert forall i :: 0 <= i < |PgnDatabase| ==> PgnDatabase[i].pgn == pgns[i];
  }

  /** The lookup is total: each listed PGN gets its own entry's name, any other PGN "Unknown". */
  lemma GetPgnNameSpec(pgn: U32)
    ensures forall i :: 0 <= i < |PgnDatabase| && PgnDatabase[i].pgn == pgn ==>
      GetPgnName(pgn) == PgnDatabase[i].name
    ensures (forall i :: 0 <= i < |PgnDatabase| ==> PgnDatabase[i].pgn != pgn) ==> GetPgnName(pgn) == "Unknown"
  {
    PgnDatabaseDistinct();
  }

  /* ------------------------------------------------------------------ */
  /* Signals                                                             */
  /* ------------------------------------------------------------------ */

  /** The C union of value and type tag becomes one tagged value. */
  datatype SpnValue = IntValue(i: int) | FloatValue(x: real) | BoolValue(b: bool)

  datatype Spn = Spn(name: string, value: SpnValue)

  /** What a zero-filled slot holds: empty name, integer tag, value 0. */
  const ZeroSpn := Spn("", IntValue(0))

  /** Capacity of a message's signal array (E32_MAX_SPNS). */
  const MaxSpns: nat := 8

  function Zeros(n: nat): (r: seq<Byte>)
    ensures |r| == n && forall i :: 0 <= i < n ==> r[i] == 0
  {
    seq(n, _ => 0)
  }

  /** DM1 SPN: bytes 2-3 are its low 16 bits, bits 7-5 of byte 4 its top three. */
  function Dm1Spn(b2: Byte, b3: Byte, b4: Byte): (spn: nat)
    ensures spn < 0x8_0000
    ensures spn % 0x1_0000 == Le16(b2, b3) && spn / 0x1_0000 == b4 / 0x20
  {
    var low, high := Le16(b2, b3), b4 / 0x20;
    var top := (high * 0x20) * 0x800;
    OrAdd(top, high, low, 0x1_0000);
    DivModUnique(top + low, high, low, 0x1_0000);
    Or(low, top)
  }

  /**
   * The signals decoded from the first `|data|` payload bytes of a frame with
   * this PGN, in the order they are appended. Every rule is guarded by the
   * payload length, so no byte at or past the length is read.
   */
  function DecodeSpns(pgn: int, data: seq<Byte>): (spns: seq<Spn>)
    ensures |spns| <= 3 <= MaxSpns
    ensures data == [] ==> spns == []
    ensures !(pgn in {PgnEec1, PgnEt1, PgnEtc1, PgnPropTransStatus, PgnRequest, PgnEngineControlCmd, PgnDm1})
      ==> spns == []
  {
    var len := |data|;
    if pgn == PgnEec1 then
      (if len >= 5 then [Spn("engineSpeed", FloatValue(Le16(data[3], data[4]) as real * 0.125))] else [])
      + (if len >= 3 then [Spn("torque", IntValue(data[2] as int - 125))] else [])
    else if pgn == PgnEt1 then
      if len >= 1 then [Spn("coolantTemp", IntValue(data[0] as int - 40))] else []
    else if pgn == PgnEtc1 || pgn == PgnPropTransStatus then
      (if len >= 2 then [Spn("outputShaftSpeed", FloatValue(Le16(data[0], data[1]) as real * 0.125))] else [])
      + (if len >= 5 then [Spn("gear", IntValue(data[4]))] else [])
    else if pgn == PgnRequest then
      if len >= 3 then [Spn("requestedPGN", IntValue(Le24(data[0], data[1], data[2])))] else []
    else if pgn == PgnEngineControlCmd then
      if len >= 3 then [Spn("targetRpm", IntValue(Le16(data[0], data[1]))), Spn("enable", BoolValue(data[2] == 1))]
      else []
    else if pgn == PgnDm1 then
      if len >= 5 then
        [Spn("lampStatus", IntValue(data[0])),
         Spn("spn", IntValue(Dm1Spn(data[2], data[3], data[4]))),
         Spn("fmi", IntValue(data[4] % 0x20))]
      else []
    else
      []
  }

  /** The integer signals stay in their documented ranges. */
  lemma DecodeSpnsRanges(pgn: int, data: seq<Byte>)
    ensures forall s :: s in DecodeSpns(pgn, data) && s.value.IntValue? ==>
      match s.name
      case "torque" => -125 <= s.value.i <= 130
      case "coolantTemp" => -40 <= s.value.i <= 215
      case "gear" => 0 <= s.value.i < 0x100
      case "requestedPGN" => 0 <= s.value.i < 0x100_0000
      case "targetRpm" => 0 <= s.value.i < 0x1_0000
      case "lampStatus" => 0 <= s.value.i < 0x100
      case "spn" => 0 <= s.value.i < 0x8_0000
      case "fmi" => 0 <= s.value.i < 0x20
      case _ => false
  {
  }

  /**
   * DM1 against the SAE J1939-73 layout written independently: a 19-bit SPN
   * and a 5-bit FMI placed in bytes 2-4 are recovered exactly.
   */
  lemma {:induction false} Dm1Layout(lamp: Byte, flash: Byte, spn: nat, fmi: nat)
    requires spn < 0x8_0000 && fmi < 0x20
    ensures DecodeSpns(PgnDm1, [lamp, flash, spn % 0x100, spn / 0x100 % 0x100, spn / 0x1_0000 * 0x20 + fmi]) ==
      [Spn("lampStatus", IntValue(lamp)), Spn("spn", IntValue(spn)), Spn("fmi", IntValue(fmi))]
  {
    var high := spn / 0x1_0000;
    var b4 := high * 0x20 + fmi;
    DivModUnique(b4, high, fmi, 0x20);
    TwoBytes(spn);
    var d := Dm1Spn(spn % 0x100, spn / 0x100 % 0x100, b4);
    assert d == spn by {
      assert d == d / 0x1_0000 * 0x1_0000 + d % 0x1_0000;
      assert spn == high * 0x1_0000 + spn % 0x1_0000;
    }
  }

  /* ------------------------------------------------------------------ */
  /* Frames and messages, filled in place                                */
  /* ------------------------------------------------------------------ */

  /** e32_can_frame_t: a fixed eight-byte data buffer and a length code. */
  class CanFrame {
    var id: U32
    var data: array<Byte>
    var dlc: Byte
    var timestamp: U32
    var isExtended: bool

    ghost predicate Valid()
      reads this
    {
      data.Length == CanMaxDataLen
    }

    /** A zero-filled frame. */
    constructor ()
      ensures Valid() && fresh(data)
      ensures id == 0 && dlc == 0 && timestamp == 0 && !isExtended && data[..] == Zeros(CanMaxDataLen)
    {
      id, dlc, timestamp, isExtended := 0, 0, 0, false;
      data := new Byte[CanMaxDataLen](_ => 0);
    }

    /** memset(frame, 0, sizeof(*frame)): every field and payload byte back to zero. */
    method Reset()
      requires Valid()
      modifies this, data
      ensures Valid() && data == old(data)
      ensures id == 0 && dlc == 0 && timestamp == 0 && !isExtended && data[..] == Zeros(CanMaxDataLen)
    {
      forall i | 0 <= i < data.Length {
        data[i] := 0;
      }
      id, dlc, timestamp, isExtended := 0, 0, 0, false;
    }
  }

  /** e32_j1939_message_t: a decoded message with bounded signal and raw-byte arrays. */
  class Message {
    var pgn: int
    var pgnName: string
    var sourceAddress: int
    var destinationAddress: int
    var priority: int
    var spns: array<Spn>
    var spnCount: nat
    var raw: array<Byte>
    var rawLen: nat
    var timestamp: int

    ghost predicate Valid()
      reads this
    {
      spns.Length == MaxSpns && raw.Length == CanMaxDataLen &&
      spnCount <= MaxSpns && rawLen <= CanMaxDataLen
    }

    /** The signals that count: the first spnCount slots. */
    function Signals(): (signals: seq<Spn>)
      reads this, spns
      requires Valid()
    {
      spns[..spnCount]
    }

    /** A zero-filled message. */
    constructor ()
      ensures Valid() && fresh(spns) && fresh(raw)
      ensures spnCount == 0 && rawLen == 0
    {
      pgn, pgnName, sourceAddress, destinationAddress, priority := 0, "", 0, 0, 0;
      spns := new Spn[MaxSpns](_ => ZeroSpn);
      raw := new Byte[CanMaxDataLen](_ => 0);
      spnCount, rawLen, timestamp := 0, 0, 0;
    }

    /** memset(message, 0, ...): every slot and every raw byte zero, no signals. */
    method Clear()
      requires Valid()
      modifies this`spnCount, this`rawLen, spns, raw
      ensures Valid() && spnCount == 0 && rawLen == 0
      ensures spns[..] == seq(MaxSpns, _ => ZeroSpn) && raw[..] == Zeros(CanMaxDataLen)
    {
      forall i | 0 <= i < spns.Length {
        spns[i] := ZeroSpn;
      }
      forall i | 0 <= i < raw.Length {
        raw[i] := 0;
      }
      spnCount, rawLen := 0, 0;
    }

    /** The header fields of the decoded message. */
    method SetHeader(parsed: ParsedId, name: string, time: U32)
      modifies this`pgn, this`pgnName, this`sourceAddress, this`destinationAddress, this`priority, this`timestamp
      ensures pgn == parsed.pgn && pgnName == name && timestamp == time
      ensures sourceAddress == parsed.sourceAddress && destinationAddress == parsed.destinationAddress
      ensures priority == parsed.priority
    {
      pgn, pgnName, sourceAddress := parsed.pgn, name, parsed.sourceAddress;
      destinationAddress, priority, timestamp := parsed.destinationAddress, parsed.priority, time;
    }

    /** memcpy(message->raw, frame->data, frame->dlc) over a zeroed raw array. */
    method CopyRaw(data: array<Byte>, dlc: Byte)
      requires Valid() && data != raw && dlc <= CanMaxDataLen <= data.Length
      requires raw[..] == Zeros(CanMaxDataLen)
      modifies this`rawLen, raw
      ensures Valid() && rawLen == dlc
      ensures raw[..] == data[..dlc] + Zeros(CanMaxDataLen - dlc)
    {
      rawLen := dlc;
      forall i | 0 <= i < dlc {
        raw[i] := data[i];
      }
      assert raw[..] == data[..dlc] + Zeros(CanMaxDataLen - dlc);
    }

    /**
     * add_spn_float, add_spn_int and add_spn_bool: append one signal while
     * there is room, silently drop it once all MaxSpns slots are taken.
     */
    method AddSpn(s: Spn)
      requires Valid()
      modifies this`spnCount, spns
      ensures Valid()
      ensures old(spnCount) < MaxSpns ==> spnCount == old(spnCount) + 1 && spns[..] == old(spns[..])[old(spnCount) := s]
      ensures old(spnCount) >= MaxSpns ==> spnCount == old(spnCount) && spns[..] == old(spns[..])
      ensures Signals() == if old(spnCount) < MaxSpns then old(Signals()) + [s] else old(Signals())
      ensures forall i :: spnCount <= i < MaxSpns ==> spns[i] == old(spns[i])
    {
      if spnCount < MaxSpns {
        spns[spnCount] := s;
        spnCount := spnCount + 1;
      }
    }
  }

  /**
   * e32_decode_frame: zero the message, copy the parsed identifier fields,
   * the timestamp and the first dlc payload bytes, then append the signals
   * of the PGN's rule. It always succeeds.
   */
  method DecodeFrame(frame: CanFrame, message: Message) returns (status: Status)
    requires frame.Valid() && message.Valid()
    requires frame.dlc <= CanMaxDataLen
    requires frame.data != message.raw
    modifies message, message.spns, message.raw
    ensures status == Ok
    ensures message.Valid() && message.spns == old(message.spns) && message.raw == old(message.raw)
    ensures message.pgn == ParseId(frame.id).pgn
    ensures message.pgnName == GetPgnName(ParseId(frame.id).pgn)
    ensures message.sourceAddress == ParseId(frame.id).sourceAddress
    ensures message.destinationAddress == ParseId(frame.id).destinationAddress
    ensures message.priority == ParseId(frame.id).priority
    ensures message.timestamp == frame.timestamp
    ensures message.rawLen == frame.dlc
    ensures message.raw[..] == frame.data[..frame.dlc] + Zeros(CanMaxDataLen - frame.dlc)
    ensures message.Signals() == DecodeSpns(ParseId(frame.id).pgn, frame.data[..frame.dlc])
    ensures forall i :: message.spnCount <= i < MaxSpns ==> message.spns[i] == ZeroSpn
  {
    message.Clear();
    var parsed := ParseId(frame.id);
    message.SetHeader(parsed, GetPgnName(parsed.pgn), frame.timestamp);
    message.CopyRaw(frame.data, frame.dlc);
    // Only the first dlc bytes are visible to the rules.
    AppendSignals(message, parsed.pgn, frame.data[..frame.dlc]);
    status := Ok;
  }

  /**
   * The switch of e32_decode_frame: append the signals of the PGN's rule to
   * an emptied message, reading only the given payload bytes.
   */
  method AppendSignals(message: Message, pgn: int, data: seq<Byte>)
    requires message.Valid() && message.spnCount == 0
    modifies message`spnCount, message.spns
    ensures message.Valid()
    ensures message.Signals() == DecodeSpns(pgn, data)
    ensures forall i :: message.spnCount <= i < MaxSpns ==> message.spns[i] == old(message.spns[i])
  {
    if pgn == PgnEec1 {
      AppendEec1(message, pgn, data);
    } else if pgn == PgnEt1 {
      if |data| >= 1 {
        message.AddSpn(Spn("coolantTemp", IntValue(data[0] as int - 40)));
      }
    } else if pgn == PgnEtc1 || pgn == PgnPropTransStatus {
      AppendEtc1(message, pgn, data);
    } else if pgn == PgnRequest {
      if |data| >= 3 {
        message.AddSpn(Spn("requestedPGN", IntValue(Le24(data[0], data[1], data[2]))));
      }
    } else if pgn == PgnEngineControlCmd {
      AppendEngineControl(message, pgn, data);
    } else if pgn == PgnDm1 {
      AppendDm1(message, pgn, data);
    }
  }

  /** The EEC1 rule: engine speed from bytes 3-4, then torque from byte 2. */
  method AppendEec1(message: Message, pgn: int, data: seq<Byte>)
    requires pgn == PgnEec1
    requires message.Valid() && message.spnCount == 0
    modifies message`spnCount, message.spns
    ensures message.Valid()
    ensures message.Signals() == DecodeSpns(pgn, data)
    ensures forall i :: message.spnCount <= i < MaxSpns ==> message.spns[i] == old(message.spns[i])
  {
    if |data| >= 5 {
      message.AddSpn(Spn("engineSpeed", FloatValue(Le16(data[3], data[4]) as real * 0.125)));
    }
    if |data| >= 3 {
      message.AddSpn(Spn("torque", IntValue(data[2] as int - 125)));
    }
  }

  /** The ETC1 and proprietary transmission rule: output shaft speed, then gear. */
  method AppendEtc1(message: Message, pgn: int, data: seq<Byte>)
    requires pgn == PgnEtc1 || pgn == PgnPropTransStatus
    requires message.Valid() && message.spnCount == 0
    modifies message`spnCount, message.spns
    ensures message.Valid()
    ensures message.Signals() == DecodeSpns(pgn, data)
    ensures forall i :: message.spnCount <= i < MaxSpns ==> message.spns[i] == old(message.spns[i])
  {
    if |data| >= 2 {
      message.AddSpn(Spn("outputShaftSpeed", FloatValue(Le16(data[0], data[1]) as real * 0.125)));
    }
    if |data| >= 5 {
      message.AddSpn(Spn("gear", IntValue(data[4])));
    }
  }

  /** The engine control rule: target speed, then the enable flag. */
  method AppendEngineControl(message: Message, pgn: int, data: seq<Byte>)
    requires pgn == PgnEngineControlCmd
    requires message.Valid() && message.spnCount == 0
    modifies message`spnCount, message.spns
    ensures message.Valid()
    ensures message.Signals() == DecodeSpns(pgn, data)
    ensures forall i :: message.spnCount <= i < MaxSpns ==> message.spns[i] == old(message.spns[i])
  {
    if |data| >= 3 {
      message.AddSpn(Spn("targetRpm", IntValue(Le16(data[0], data[1]))));
      message.AddSpn(Spn("enable", BoolValue(data[2] == 1)));
    }
  }

  /** The DM1 rule: lamp status, the 19-bit SPN, then the FMI. */
  method AppendDm1(message: Message, pgn: int, data: seq<Byte>)
    requires pgn == PgnDm1
    requires message.Valid() && message.spnCount == 0
    modifies message`spnCount, message.spns
    ensures message.Valid()
    ensures message.Signals() == DecodeSpns(pgn, data)
    ensures forall i :: message.spnCount <= i < MaxSpns ==> message.spns[i] == old(message.spns[i])
  {
    if |data| >= 5 {
      var lamp := Spn("lampStatus", IntValue(data[0]));
      var spn := Spn("spn", IntValue(Dm1Spn(data[2], data[3], data[4])));
      var fmi := Spn("fmi", IntValue(data[4] % 0x20));
      assert DecodeSpns(pgn, data) == [lamp, spn, fmi];
      message.AddSpn(lamp);
      message.AddSpn(spn);
      message.AddSpn(fmi);
    }
  }

  /* ------------------------------------------------------------------ */
  /* Encoders                                                            */
  /* ------------------------------------------------------------------ */

  /** e32_engine_control_cmd_t. */
  datatype EngineControlCmd = EngineControlCmd(targetRpm: U16, enable: bool, faultFlags: Byte)

  /** The three little-endian bytes of a requested PGN; bits above 23 are dropped. */
  function RequestPayload(requestedPgn: U32): (r: seq<Byte>)
    ensures |r| == 3 && Le24(r[0], r[1], r[2]) == requestedPgn % 0x100_0000
  {
    ThreeBytes(requestedPgn);
    [requestedPgn % 0x100, requestedPgn / 0x100 % 0x100, requestedPgn / 0x1_0000 % 0x100]
  }

  /** Target RPM little-endian, enable as 0/1, fault flags, four 0xFF "not available" bytes. */
  function EngineControlPayload(cmd: EngineControlCmd): (r: seq<Byte>)
    ensures |r| == 8 && Le16(r[0], r[1]) == cmd.targetRpm
    ensures r[2] <= 1 && (r[2] == 1 <==> cmd.enable) && r[3] == cmd.faultFlags
    ensures r[4..] == [0xFF, 0xFF, 0xFF, 0xFF]
  {
    [cmd.targetRpm % 0x100, cmd.targetRpm / 0x100 % 0x100, if cmd.enable then 1 else 0, cmd.faultFlags,
     0xFF, 0xFF, 0xFF, 0xFF]
  }

  /** e32_encode_request: a three-byte Request (0xEA00) at priority 6 to `destination`. */
  method EncodeRequest(requestedPgn: U32, sourceAddress: Byte, destination: Byte, frame: CanFrame)
    requires frame.Valid()
    modifies frame, frame.data
    ensures frame.Valid() && frame.data == old(frame.data)
    ensures frame.id == BuildId(PgnRequest, sourceAddress, 6, destination)
    ensures frame.dlc == 3 && frame.isExtended && frame.timestamp == 0
    ensures frame.data[..] == RequestPayload(requestedPgn) + Zeros(5)
  {
    frame.Reset();
    frame.id := BuildId(PgnRequest, sourceAddress, 6, destination);
    frame.dlc := 3;
    frame.isExtended := true;
    WriteRequest(frame.data, requestedPgn);
  }

  /** The three payload writes of e32_encode_request, over a zeroed payload. */
  method WriteRequest(data: array<Byte>, requestedPgn: U32)
    requires data.Length == CanMaxDataLen && data[..] == Zeros(CanMaxDataLen)
    modifies data
    ensures data[..] == RequestPayload(requestedPgn) + Zeros(5)
  {
    data[0] := requestedPgn % 0x100;
    data[1] := requestedPgn / 0x100 % 0x100;
    data[2] := requestedPgn / 0x1_0000 % 0x100;
    assert data[..] == RequestPayload(requestedPgn) + Zeros(5);
  }

  /** e32_encode_engine_control: an eight-byte Engine Control Command (0xEF00), priority 6, to all nodes. */
  method EncodeEngineControl(cmd: EngineControlCmd, sourceAddress: Byte, frame: CanFrame)
    requires frame.Valid()
    modifies frame, frame.data
    ensures frame.Valid() && frame.data == old(frame.data)
    ensures frame.id == BuildId(PgnEngineControlCmd, sourceAddress, 6, SaGlobal)
    ensures frame.dlc == 8 && frame.isExtended && frame.timestamp == 0
    ensures frame.data[..] == EngineControlPayload(cmd)
  {
    frame.Reset();
    frame.id := BuildId(PgnEngineControlCmd, sourceAddress, 6, SaGlobal);
    frame.dlc := 8;
    frame.isExtended := true;
    WriteEngineControl(frame.data, cmd);
  }

  /** The eight payload writes of e32_encode_engine_control. */
  method WriteEngineControl(data: array<Byte>, cmd: EngineControlCmd)
    requires data.Length == CanMaxDataLen
    modifies data
    ensures data[..] == EngineControlPayload(cmd)
  {
    data[0] := cmd.targetRpm % 0x100;
    data[1] := cmd.targetRpm / 0x100 % 0x100;
    data[2] := if cmd.enable then 1 else 0;
    data[3] := cmd.faultFlags;
    data[4] := 0xFF;
    data[5] := 0xFF;
    data[6] := 0xFF;
    data[7] := 0xFF;
    assert data[..] == EngineControlPayload(cmd);
  }

  /**
   * A Request frame decodes as a Request addressed to `destination` whose
   * requestedPGN is the low 24 bits of the PGN that was encoded.
   */
  lemma RequestRoundTrip(requestedPgn: U32, sourceAddress: Byte, destination: Byte)
    ensures ParseId(BuildId(PgnRequest, sourceAddress, 6, destination)) ==
      ParsedId(6, PgnRequest, sourceAddress, destination, true)
    ensures DecodeSpns(PgnRequest, RequestPayload(requestedPgn)) ==
      [Spn("requestedPGN", IntValue(requestedPgn % 0x100_0000))]
  {
    ParseBuild(PgnRequest, sourceAddress, 6, destination);
  }

  /** An Engine Control Command frame decodes back to the commanded RPM and enable flag. */
  lemma EngineControlRoundTrip(cmd: EngineControlCmd, sourceAddress: Byte)
    ensures ParseId(BuildId(PgnEngineControlCmd, sourceAddress, 6, SaGlobal)) ==
      ParsedId(6, PgnEngineControlCmd, sourceAddress, SaGlobal, true)
    ensures DecodeSpns(PgnEngineControlCmd, EngineControlPayload(cmd)) ==
      [Spn("targetRpm", IntValue(cmd.targetRpm)), Spn("enable", BoolValue(cmd.enable))]
  {
    ParseBuild(PgnEngineControlCmd, sourceAddress, 6, SaGlobal);
  }
}
