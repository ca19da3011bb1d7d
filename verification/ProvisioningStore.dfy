/** The Set and Report commands as the code runs them: a fixed table edited in place, a parser that
    walks the frame, and a report built element by element. */
module ProvisioningStore {
  import opened Common
  import opened Provisioning

  class ProvisioningList {
    var slots: array<Option<Entry>>

    // An empty list.
    constructor (size: nat)
      ensures fresh(slots) && slots.Length == size && forall i :: 0 <= i < size ==> slots[i].None?
    {
      slots := new Option<Entry>[size](_ => None);
    }

    method DevGet(dsk: seq<Byte>) returns (i: nat)
      ensures i == FindDsk(slots[..], dsk)
    {
      i := 0;
      while i < slots.Length
        invariant i <= slots.Length
        invariant forall j :: 0 <= j < i ==> !(slots[j].Some? && slots[j].value.dsk == dsk)
      {
        if slots[i].Some? && slots[i].value.dsk == dsk { return; }
        i := i + 1;
      }
    }

    method FreeSlot() returns (i: nat)
      ensures i == FindFree(slots[..])
    {
      i := 0;
      while i < slots.Length
        invariant i <= slots.Length
        invariant forall j :: 0 <= j < i ==> slots[j].Some?
      {
        if slots[i].None? { return; }
        i := i + 1;
      }
    }

    // The walk over the elements of a Set frame.
    method ParseElements(b: seq<Byte>) returns (f: Option<Fields>)
      ensures f == Parse(b, NO_FIELDS)
    {
      var fields := NO_FIELDS;
      var at := 0;
      while |b| - at > 2
        invariant 0 <= at <= |b|
        invariant Parse(b, NO_FIELDS) == Parse(b[at..], fields)
        decreases |b| - at
      {
        var head, len := b[at], b[at + 1] as int;
        if |b| < at + 2 + len { break; }
        ghost var rest := b[at..];
        assert rest[0] == head && rest[1] == len && rest[2] == b[at + 2];
        assert rest[2..2 + len] == b[at + 2..at + 2 + len] && rest[2 + len..] == b[at + 2 + len..];
        var g := Take(fields, head, b[at + 2], b[at + 2..at + 2 + len]);
        if g.None? { return None; }
        fields := g.value;
        at := at + 2 + len;
      }
      return Some(fields);
    }

    method StoreTlvs(ts: seq<Tlv>, stored: map<Byte, seq<Byte>>) returns (r: seq<Tlv>)
      ensures r == Store(ts, stored, 0)
    {
      r := ts;
      var i := 0;
      while i < |ORDER|
        invariant i <= |ORDER|
        invariant Store(ts, stored, 0) == Store(r, stored, i)
      {
        if ORDER[i] in stored { r := TlvSet(r, ORDER[i], stored[ORDER[i]]); }
        i := i + 1;
      }
    }

    method HandleSet(frame: seq<Byte>, checks: Checks) returns (code: Code)
      modifies slots
      ensures (slots[..], code) == Set(old(slots[..]), frame, checks)
    {
      if |frame| < 4 { return ParseError; }
      var n := frame[3] % DSK_LENGTH_MASK;
      if |frame| < 4 + n { return ParseError; }
      if n < MIN_DSK { return ParseError; }
      var f := ParseElements(frame[4 + n..]);
      if f.None? { return ParseError; }
      if !NamesOk(f.value, checks) { return ParseError; }
      EditEntry(frame[4..4 + n], f.value);
      return Handled;
    }

    method EditEntry(dsk: seq<Byte>, f: Fields)
      modifies slots
      ensures slots[..] == Update(old(slots[..]), dsk, f)
    {
      var i := DevGet(dsk);
      var e: Entry;
      if i == slots.Length {
        i := FreeSlot();
        if i == slots.Length { return; }
        e := Entry(dsk, SMART_START, PENDING, []);
      } else {
        e := slots[i].value;
      }
      var tlvs := StoreTlvs(e.tlvs, f.stored);
      var boot := if f.boot.Some? then f.boot.value else e.boot;
      var status := if f.status.Some? then f.status.value else e.status;
      slots[i] := Some(Entry(e.dsk, boot, status, tlvs));
    }

    // The elements of a report: boot mode, status, network information, then the stored ones.
    method BuildReportTlvs(e: Entry, network: Network) returns (b: seq<Byte>)
      requires Encodable(e.tlvs)
      ensures b == ReportTlvs(e, network)
    {
      b := Encode(2 * BOOT_MODE + 1, [e.boot]);
      b := b + Encode(2 * STATUS + 1, [e.status]);
      b := b + Encode(2 * NETWORK_INFO, network);
      ghost var headers := b;
      var i := 0;
      while i < |e.tlvs|
        invariant i <= |e.tlvs|
        invariant headers + EncodeAll(e.tlvs) == b + EncodeAll(e.tlvs[i..])
      {
        var t := e.tlvs[i];
        assert e.tlvs[i..][0] == t && e.tlvs[i..][1..] == e.tlvs[i + 1..];
        b := b + Encode(2 * t.kind + Critical(t.kind), t.value);
        i := i + 1;
      }
    }
  }
}
