/** The provisioning list: the type-length-value codec of its Set and Report commands
    (src/CC_provisioning_list.c) and the entries they edit (src/provisioning_list.c). */
module Provisioning {
  import opened Common

  const PRODUCT_TYPE := 0x00
  const PRODUCT_ID := 0x01
  const MAX_INCL_INTERVAL := 0x02
  const UUID16 := 0x03
  const NAME := 0x32
  const LOCATION := 0x33
  const STATUS := 0x34
  const ADV_JOIN := 0x35
  const BOOT_MODE := 0x36
  const NETWORK_INFO := 0x37

  const DSK_LENGTH_MASK := 32
  const MIN_DSK := 16
  const PENDING: Byte := 0
  const SMART_START: Byte := 1

  datatype Tlv = Tlv(kind: Byte, value: seq<Byte>)

  datatype Entry = Entry(dsk: seq<Byte>, boot: Byte, status: Byte, tlvs: seq<Tlv>)

  // The name checks of src/utls/zgw_str.c.
  datatype Checks = Checks(name: seq<Byte> -> bool, location: seq<Byte> -> bool)

  // ---------------------------------------------------------------- the codec

  // provisioning_list_tlv_crt_flag
  function Critical(kind: Byte): Byte { if kind == ADV_JOIN then 1 else 0 }

  function Encode(head: Byte, value: seq<Byte>): seq<Byte>
    requires |value| < 256
  {
    [head, |value|] + value
  }

  predicate Encodable(ts: seq<Tlv>) {
    forall i :: 0 <= i < |ts| ==> |ts[i].value| < 256 && ts[i].kind < 128
  }

  function EncodeAll(ts: seq<Tlv>): seq<Byte>
    requires Encodable(ts)
  {
    if ts == [] then []
    else Encode(2 * ts[0].kind + Critical(ts[0].kind), ts[0].value) + EncodeAll(ts[1..])
  }

  // The walk of the Set parser: it stops with fewer than three bytes left, or when the value would
  // run over the end.
  predicate Another(b: seq<Byte>) { |b| > 2 && |b| - 2 >= b[1] }

  function Walk(b: seq<Byte>): seq<(int, seq<Byte>)> {
    if !Another(b) then [] else [(b[0], b[2..2 + b[1]])] + Walk(b[2 + b[1]..])
  }

  function Heads(ts: seq<Tlv>): seq<(int, seq<Byte>)> {
    if ts == [] then [] else [(2 * ts[0].kind + Critical(ts[0].kind), ts[0].value)] + Heads(ts[1..])
  }

  // One element is seen if it has a value or something follows it.
  lemma {:induction false} WalkElement(head: Byte, value: seq<Byte>, rest: seq<Byte>)
    requires |value| < 256 && (value != [] || rest != [])
    ensures Walk(Encode(head, value) + rest) == [(head, value)] + Walk(rest)
  {
    var b := Encode(head, value) + rest;
    assert b[2..2 + b[1]] == value && b[2 + b[1]..] == rest;
  }

  // All but a last element without a value.
  function Visible(ts: seq<Tlv>): seq<Tlv> {
    if ts == [] || (|ts| == 1 && ts[0].value == []) then [] else [ts[0]] + Visible(ts[1..])
  }

  lemma {:induction false} VisibleIsAllButEmptyLast(ts: seq<Tlv>)
    ensures Visible(ts) == if ts != [] && ts[|ts| - 1].value == [] then ts[..|ts| - 1] else ts
  {
    if |ts| == 1 {
      assert ts[1..] == [] && [ts[0]] == ts;
    } else if |ts| > 1 {
      VisibleIsAllButEmptyLast(ts[1..]);
      assert ts[1..][|ts| - 2] == ts[|ts| - 1];
      assert [ts[0]] + ts[1..][..|ts| - 2] == ts[..|ts| - 1];
      assert [ts[0]] + ts[1..] == ts;
    }
  }

  lemma {:induction false} HeadsCons(t: Tlv, v: seq<Tlv>)
    ensures Heads([t] + v) == [(2 * t.kind + Critical(t.kind), t.value)] + Heads(v)
  {
    assert ([t] + v)[1..] == v;
  }

  lemma {:induction false} WalkNothing(head: Byte)
    ensures Walk(Encode(head, [])) == []
  {
    assert |Encode(head, [])| == 2;
  }

  // The walk over an element and what follows it, given the walk over what follows.
  lemma {:induction false} WalkOne(t: Tlv, rest: seq<Byte>, v: seq<Tlv>)
    requires |t.value| < 256 && t.kind < 128 && (t.value != [] || rest != []) && Walk(rest) == Heads(v)
    ensures Walk(Encode(2 * t.kind + Critical(t.kind), t.value) + rest) == Heads([t] + v)
  {
    WalkElement(2 * t.kind + Critical(t.kind), t.value, rest);
    HeadsCons(t, v);
  }

  lemma {:induction false} EncodeAllUnfolds(ts: seq<Tlv>)
    requires Encodable(ts) && ts != []
    ensures EncodeAll(ts) == Encode(2 * ts[0].kind + Critical(ts[0].kind), ts[0].value) + EncodeAll(ts[1..])
    ensures EncodeAll(ts) != []
  {
  }

  lemma {:induction false} WalkDropped(t: Tlv)
    requires t.value == [] && t.kind < 128
    ensures Walk(EncodeAll([t])) == []
  {
    EncodeAllUnfolds([t]);
    assert [t][1..] == [];
    WalkNothing(2 * t.kind + Critical(t.kind));
  }

  lemma {:induction false} WalkMore(ts: seq<Tlv>, u: seq<Tlv>, v: seq<Tlv>)
    requires Encodable(ts) && ts != [] && u == ts[1..] && (ts[0].value != [] || u != [])
    requires Walk(EncodeAll(u)) == Heads(v)
    ensures Walk(EncodeAll(ts)) == Heads([ts[0]] + v)
  {
    EncodeAllUnfolds(ts);
    if u != [] { EncodeAllUnfolds(u); }
    WalkOne(ts[0], EncodeAll(u), v);
  }

  /** What the parser sees of a section that a report wrote: every element, in order, unless the last
      one has no value, which it drops. */
  lemma {:induction false} WalkRecovers(ts: seq<Tlv>)
    requires Encodable(ts)
    ensures Walk(EncodeAll(ts)) == Heads(Visible(ts))
    decreases |ts|
  {
    if ts != [] {
      if |ts| == 1 && ts[0].value == [] {
        assert ts == [ts[0]];
        WalkDropped(ts[0]);
      } else {
        WalkRecovers(ts[1..]);
        WalkMore(ts, ts[1..], Visible(ts[1..]));
      }
    }
  }

  // ---------------------------------------------------------------- the Set parser

  // What a Set says: each field if present. A stored element is kept as it will be stored.
  datatype Fields = Fields(boot: Option<Byte>, status: Option<Byte>, stored: map<Byte, seq<Byte>>)

  const NO_FIELDS := Fields(None, None, map[])

  // One element; None is a parse error. `first` is the byte after the length.
  function Take(f: Fields, head: Byte, first: Byte, value: seq<Byte>): Option<Fields> {
    var kind: Byte := head / 2;
    if kind == NAME || kind == LOCATION then Some(f.(stored := f.stored[kind := value]))
    else if kind == BOOT_MODE then Some(f.(boot := Some(first)))
    else if kind == PRODUCT_TYPE then if |value| < 4 then None else Some(f.(stored := f.stored[kind := value]))
    else if kind == PRODUCT_ID then if |value| < 8 then None else Some(f.(stored := f.stored[kind := value]))
    else if kind == STATUS then if |value| < 1 then None else Some(f.(status := Some(first)))
    else if kind == NETWORK_INFO then Some(f)
    else if kind == ADV_JOIN || kind == MAX_INCL_INTERVAL then
      if |value| < 1 then None else Some(f.(stored := f.stored[kind := [first]]))
    else if kind == UUID16 then if |value| < 17 then None else Some(f.(stored := f.stored[kind := value[..17]]))
    else if head % 2 == 1 then None
    else Some(f)
  }

  function Parse(b: seq<Byte>, f: Fields): Option<Fields> {
    if !Another(b) then Some(f)
    else
      var g := Take(f, b[0], b[2], b[2..2 + b[1]]);
      if g.None? then None else Parse(b[2 + b[1]..], g.value)
  }

  predicate NamesOk(f: Fields, checks: Checks) {
    && (NAME in f.stored && f.stored[NAME] != [] ==> checks.name(f.stored[NAME]))
    && (LOCATION in f.stored && f.stored[LOCATION] != [] ==> checks.location(f.stored[LOCATION]))
  }

  // ---------------------------------------------------------------- editing an entry

  predicate HasKind(ts: seq<Tlv>, kind: Byte) { exists i :: 0 <= i < |ts| && ts[i].kind == kind }

  function Replaced(ts: seq<Tlv>, kind: Byte, value: seq<Byte>): seq<Tlv> {
    if ts == [] then []
    else if ts[0].kind == kind then [Tlv(kind, value)] + ts[1..]
    else [ts[0]] + Replaced(ts[1..], kind, value)
  }

  // provisioning_list_tlv_set: the old element keeps its place, a new one goes to the front.
  function TlvSet(ts: seq<Tlv>, kind: Byte, value: seq<Byte>): seq<Tlv> {
    if value == [] then ts
    else if HasKind(ts, kind) then Replaced(ts, kind, value)
    else [Tlv(kind, value)] + ts
  }

  const ORDER: seq<Byte> := [NAME, LOCATION, ADV_JOIN, PRODUCT_TYPE, PRODUCT_ID, MAX_INCL_INTERVAL, UUID16]

  // The stored fields are written in this order, from position `i` on.
  function Store(ts: seq<Tlv>, stored: map<Byte, seq<Byte>>, i: nat): seq<Tlv>
    requires i <= |ORDER|
    decreases |ORDER| - i
  {
    if i == |ORDER| then ts
    else Store(if ORDER[i] in stored then TlvSet(ts, ORDER[i], stored[ORDER[i]]) else ts, stored, i + 1)
  }

  function Edited(e: Entry, f: Fields): Entry {
    e.(boot := if f.boot.Some? then f.boot.value else e.boot,
       status := if f.status.Some? then f.status.value else e.status,
       tlvs := Store(e.tlvs, f.stored, 0))
  }

  // ---------------------------------------------------------------- the list

  // A fixed table; a free slot holds None.
  type Slots = seq<Option<Entry>>

  function FindDsk(s: Slots, dsk: seq<Byte>): (i: nat)
    ensures i <= |s|
    ensures i < |s| ==> s[i].Some? && s[i].value.dsk == dsk
    ensures forall j :: 0 <= j < i ==> !(s[j].Some? && s[j].value.dsk == dsk)
  {
    if s == [] || (s[0].Some? && s[0].value.dsk == dsk) then 0 else 1 + FindDsk(s[1..], dsk)
  }

  function FindFree(s: Slots): (i: nat)
    ensures i <= |s|
    ensures i < |s| ==> s[i].None?
    ensures forall j :: 0 <= j < i ==> s[j].Some?
  {
    if s == [] || s[0].None? then 0 else 1 + FindFree(s[1..])
  }

  function Update(s: Slots, dsk: seq<Byte>, f: Fields): Slots {
    var i := FindDsk(s, dsk);
    if i < |s| then s[i := Some(Edited(s[i].value, f))]
    else
      var j := FindFree(s);
      if j == |s| then s else s[j := Some(Edited(Entry(dsk, SMART_START, PENDING, []), f))]
  }

  datatype Code = Handled | ParseError

  // A Set frame: class, command, sequence number, DSK length, DSK, elements.
  datatype Command = Command(dsk: seq<Byte>, fields: Fields)

  function ParseFrame(frame: seq<Byte>, checks: Checks): Option<Command> {
    if |frame| < 4 then None
    else
      var n := frame[3] % DSK_LENGTH_MASK;
      if |frame| < 4 + n || n < MIN_DSK then None
      else
        var f := Parse(frame[4 + n..], NO_FIELDS);
        if f.None? || !NamesOk(f.value, checks) then None else Some(Command(frame[4..4 + n], f.value))
  }

  // PVL_CommandHandler for COMMAND_PROVISION_SET
  function Set(s: Slots, frame: seq<Byte>, checks: Checks): (Slots, Code) {
    var c := ParseFrame(frame, checks);
    if c.None? then (s, ParseError) else (Update(s, c.value.dsk, c.value.fields), Handled)
  }

  // What the network knows of the node, for the report: id, status, long-range id.
  type Network = n: seq<Byte> | |n| == 4 witness [0, 0, 0, 0]

  function ReportTlvs(e: Entry, network: Network): seq<Byte>
    requires Encodable(e.tlvs)
  {
    Encode(2 * BOOT_MODE + 1, [e.boot]) + Encode(2 * STATUS + 1, [e.status]) + Encode(2 * NETWORK_INFO, network)
    + EncodeAll(e.tlvs)
  }

  // The entry's report with the command byte of a Set.
  function ReportAsSet(e: Entry, network: Network, cmdClass: Byte, cmd: Byte, seqNo: Byte): seq<Byte>
    requires Encodable(e.tlvs) && |e.dsk| < DSK_LENGTH_MASK
  {
    [cmdClass, cmd, seqNo, |e.dsk|] + e.dsk + ReportTlvs(e, network)
  }

  // ---------------------------------------------------------------- what a Set leaves in the list

  predicate ValueOk(kind: Byte, v: seq<Byte>) {
    && 0 < |v| < 256 && kind in ORDER
    && (kind == PRODUCT_TYPE ==> |v| >= 4)
    && (kind == PRODUCT_ID ==> |v| >= 8)
    && (kind == ADV_JOIN || kind == MAX_INCL_INTERVAL ==> |v| == 1)
    && (kind == UUID16 ==> |v| == 17)
  }

  predicate NameOk(kind: Byte, v: seq<Byte>, checks: Checks) {
    (kind == NAME ==> checks.name(v)) && (kind == LOCATION ==> checks.location(v))
  }

  predicate ElementOk(t: Tlv, checks: Checks) { ValueOk(t.kind, t.value) && NameOk(t.kind, t.value, checks) }

  // Every element has a known kind and a fitting value, and no kind occurs twice.
  predicate TlvsOk(ts: seq<Tlv>, checks: Checks) {
    && (forall i :: 0 <= i < |ts| ==> ElementOk(ts[i], checks))
    && (forall i, j :: 0 <= i < j < |ts| ==> ts[i].kind != ts[j].kind)
  }

  predicate EntryOk(e: Entry, checks: Checks) {
    TlvsOk(e.tlvs, checks) && MIN_DSK <= |e.dsk| < DSK_LENGTH_MASK
  }

  predicate ListOk(s: Slots, checks: Checks) {
    && (forall i :: 0 <= i < |s| && s[i].Some? ==> EntryOk(s[i].value, checks))
    && (forall i, j :: 0 <= i < j < |s| && s[i].Some? && s[j].Some? ==> s[i].value.dsk != s[j].value.dsk)
  }

  // Values as the parser accepts them, before the names are checked.
  predicate FieldsOk(f: Fields) {
    forall k :: k in f.stored ==> ValueOk(k, f.stored[k]) || ((k == NAME || k == LOCATION) && f.stored[k] == [])
  }

  lemma {:induction false} TakeKeepsFields(f: Fields, head: Byte, first: Byte, value: seq<Byte>)
    requires FieldsOk(f) && |value| < 256
    ensures var g := Take(f, head, first, value); g.Some? ==> FieldsOk(g.value)
  {
  }

  lemma {:induction false} ParseKeepsFields(b: seq<Byte>, f: Fields)
    requires FieldsOk(f)
    ensures Parse(b, f).Some? ==> FieldsOk(Parse(b, f).value)
  {
    if Another(b) {
      var g := Take(f, b[0], b[2], b[2..2 + b[1]]);
      TakeKeepsFields(f, b[0], b[2], b[2..2 + b[1]]);
      if g.Some? { ParseKeepsFields(b[2 + b[1]..], g.value); }
    }
  }

  // Replacing writes the one element of the kind and leaves the others where they are.
  lemma {:induction false} ReplacedAt(ts: seq<Tlv>, i: nat, kind: Byte, value: seq<Byte>)
    requires i < |ts| && ts[i].kind == kind && forall j :: 0 <= j < i ==> ts[j].kind != kind
    ensures Replaced(ts, kind, value) == ts[i := Tlv(kind, value)]
  {
    if i > 0 {
      assert forall j :: 0 <= j < i - 1 ==> ts[1..][j] == ts[j + 1];
      ReplacedAt(ts[1..], i - 1, kind, value);
    }
  }

  lemma {:induction false} WriteKeeps(ts: seq<Tlv>, i: nat, t: Tlv, checks: Checks)
    requires TlvsOk(ts, checks) && i < |ts| && ts[i].kind == t.kind && ElementOk(t, checks)
    ensures TlvsOk(ts[i := t], checks)
  {
    var u := ts[i := t];
    forall j | 0 <= j < |u| ensures ElementOk(u[j], checks) {
      if j != i { assert u[j] == ts[j]; }
    }
    forall j, k | 0 <= j < k < |u| ensures u[j].kind != u[k].kind {
      assert ts[j].kind != ts[k].kind;
    }
  }

  lemma {:induction false} InsertKeeps(ts: seq<Tlv>, t: Tlv, checks: Checks)
    requires TlvsOk(ts, checks) && !HasKind(ts, t.kind) && ElementOk(t, checks)
    ensures TlvsOk([t] + ts, checks)
  {
    var u := [t] + ts;
    forall j | 0 <= j < |u| ensures ElementOk(u[j], checks) {
      if j > 0 { assert u[j] == ts[j - 1]; }
    }
    forall j, k | 0 <= j < k < |u| ensures u[j].kind != u[k].kind {
      assert u[k] == ts[k - 1];
      if j > 0 { assert u[j] == ts[j - 1]; }
    }
  }

  lemma {:induction false} TlvSetKeeps(ts: seq<Tlv>, kind: Byte, value: seq<Byte>, checks: Checks)
    requires TlvsOk(ts, checks) && (value == [] || ElementOk(Tlv(kind, value), checks))
    ensures TlvsOk(TlvSet(ts, kind, value), checks)
  {
    if value != [] {
      if HasKind(ts, kind) {
        var i :| 0 <= i < |ts| && ts[i].kind == kind;
        ReplacedAt(ts, i, kind, value);
        WriteKeeps(ts, i, Tlv(kind, value), checks);
      } else {
        InsertKeeps(ts, Tlv(kind, value), checks);
      }
    }
  }

  lemma {:induction false} StoreKeeps(ts: seq<Tlv>, f: Fields, i: nat, checks: Checks)
    requires i <= |ORDER| && TlvsOk(ts, checks) && FieldsOk(f) && NamesOk(f, checks)
    ensures TlvsOk(Store(ts, f.stored, i), checks)
    decreases |ORDER| - i
  {
    if i < |ORDER| {
      var k := ORDER[i];
      if k in f.stored {
        TlvSetKeeps(ts, k, f.stored[k], checks);
        StoreKeeps(TlvSet(ts, k, f.stored[k]), f, i + 1, checks);
      } else {
        StoreKeeps(ts, f, i + 1, checks);
      }
    }
  }

  lemma {:induction false} UpdateKeeps(s: Slots, dsk: seq<Byte>, f: Fields, checks: Checks)
    requires ListOk(s, checks) && FieldsOk(f) && NamesOk(f, checks) && MIN_DSK <= |dsk| < DSK_LENGTH_MASK
    ensures ListOk(Update(s, dsk, f), checks)
  {
    var i := FindDsk(s, dsk);
    if i < |s| {
      StoreKeeps(s[i].value.tlvs, f, 0, checks);
    } else {
      StoreKeeps([], f, 0, checks);
    }
  }

  /** Every Set, well-formed or not, leaves a list whose entries have well-formed elements of pairwise
      different kinds and pairwise different DSKs; one that ends in a parse error changes nothing. */
  lemma {:induction false} SetKeepsList(s: Slots, frame: seq<Byte>, checks: Checks)
    requires ListOk(s, checks)
    ensures ListOk(Set(s, frame, checks).0, checks)
    ensures Set(s, frame, checks).1 == ParseError ==> Set(s, frame, checks).0 == s
  {
    var c := ParseFrame(frame, checks);
    if c.Some? {
      ParsedIsOk(frame, checks);
      UpdateKeeps(s, c.value.dsk, c.value.fields, checks);
    }
  }

  lemma {:induction false} ParsedIsOk(frame: seq<Byte>, checks: Checks)
    requires ParseFrame(frame, checks).Some?
    ensures var c := ParseFrame(frame, checks).value;
      FieldsOk(c.fields) && NamesOk(c.fields, checks) && MIN_DSK <= |c.dsk| < DSK_LENGTH_MASK
  {
    var n := frame[3] % DSK_LENGTH_MASK;
    ParseKeepsFields(frame[4 + n..], NO_FIELDS);
  }

  function SetAll(s: Slots, frames: seq<seq<Byte>>, checks: Checks): Slots
    decreases |frames|
  {
    if frames == [] then s else SetAll(Set(s, frames[0], checks).0, frames[1..], checks)
  }

  lemma {:induction false} SetAllKeepsList(s: Slots, frames: seq<seq<Byte>>, checks: Checks)
    requires ListOk(s, checks)
    ensures ListOk(SetAll(s, frames, checks), checks)
    decreases |frames|
  {
    if frames != [] {
      SetKeepsList(s, frames[0], checks);
      SetAllKeepsList(Set(s, frames[0], checks).0, frames[1..], checks);
    }
  }

  // ---------------------------------------------------------------- a report fed back

  // Parsing past one element that has a value.
  lemma {:induction false} ParseElement(head: Byte, value: seq<Byte>, rest: seq<Byte>, f: Fields, g: Fields)
    requires 0 < |value| < 256 && Take(f, head, value[0], value) == Some(g)
    ensures Parse(Encode(head, value) + rest, f) == Parse(rest, g)
  {
    var b := Encode(head, value) + rest;
    assert b[2..2 + b[1]] == value && b[2 + b[1]..] == rest;
  }

  lemma {:induction false} TakeOwn(t: Tlv, f: Fields)
    requires ValueOk(t.kind, t.value)
    ensures Take(f, 2 * t.kind + Critical(t.kind), t.value[0], t.value) == Some(f.(stored := f.stored[t.kind := t.value]))
  {
    assert (2 * t.kind + Critical(t.kind)) / 2 == t.kind;
    if t.kind == UUID16 { assert t.value[..17] == t.value; }
    if t.kind == ADV_JOIN || t.kind == MAX_INCL_INTERVAL { assert t.value == [t.value[0]]; }
  }

  function Overlay(m: map<Byte, seq<Byte>>, ts: seq<Tlv>): map<Byte, seq<Byte>>
    decreases |ts|
  {
    if ts == [] then m else Overlay(m[ts[0].kind := ts[0].value], ts[1..])
  }

  lemma {:induction false} OkIsEncodable(ts: seq<Tlv>, checks: Checks)
    requires TlvsOk(ts, checks)
    ensures Encodable(ts)
  {
  }

  lemma {:induction false} ParseOwn(ts: seq<Tlv>, f: Fields, checks: Checks)
    requires TlvsOk(ts, checks) && Encodable(ts)
    ensures Parse(EncodeAll(ts), f) == Some(f.(stored := Overlay(f.stored, ts)))
    decreases |ts|
  {
    if ts != [] {
      var t, g := ts[0], f.(stored := f.stored[ts[0].kind := ts[0].value]);
      assert ElementOk(t, checks);
      TakeOwn(t, f);
      ParseElement(2 * t.kind + Critical(t.kind), t.value, EncodeAll(ts[1..]), f, g);
      ParseOwn(ts[1..], g, checks);
    }
  }

  lemma {:induction false} ParseHeaders(boot: Byte, status: Byte, network: Network, rest: seq<Byte>)
    ensures Parse(Encode(2 * BOOT_MODE + 1, [boot]) + (Encode(2 * STATUS + 1, [status]) + (Encode(2 * NETWORK_INFO, network) + rest)), NO_FIELDS)
         == Parse(rest, Fields(Some(boot), Some(status), map[]))
  {
    var net := Encode(2 * NETWORK_INFO, network) + rest;
    var f1 := Fields(Some(boot), None, map[]);
    var f2 := Fields(Some(boot), Some(status), map[]);
    ParseElement(2 * BOOT_MODE + 1, [boot], Encode(2 * STATUS + 1, [status]) + net, NO_FIELDS, f1);
    ParseElement(2 * STATUS + 1, [status], net, f1, f2);
    ParseElement(2 * NETWORK_INFO, network, rest, f2, f2);
  }

  lemma {:induction false} Regroup(a: seq<Byte>, b: seq<Byte>, c: seq<Byte>, d: seq<Byte>)
    ensures a + b + c + d == a + (b + (c + d))
  {
  }

  lemma {:induction false} ParseReport(e: Entry, network: Network, checks: Checks)
    requires TlvsOk(e.tlvs, checks) && Encodable(e.tlvs)
    ensures Parse(ReportTlvs(e, network), NO_FIELDS) == Some(Fields(Some(e.boot), Some(e.status), Overlay(map[], e.tlvs)))
  {
    Regroup(Encode(2 * BOOT_MODE + 1, [e.boot]), Encode(2 * STATUS + 1, [e.status]), Encode(2 * NETWORK_INFO, network),
            EncodeAll(e.tlvs));
    ParseHeaders(e.boot, e.status, network, EncodeAll(e.tlvs));
    ParseOwn(e.tlvs, Fields(Some(e.boot), Some(e.status), map[]), checks);
  }

  // What is to be stored is what the entry holds already.
  predicate Mirrors(m: map<Byte, seq<Byte>>, ts: seq<Tlv>) {
    forall k :: k in m ==> Tlv(k, m[k]) in ts
  }

  lemma {:induction false} OverlayMirrors(m: map<Byte, seq<Byte>>, ts: seq<Tlv>, all: seq<Tlv>)
    requires Mirrors(m, all) && forall i :: 0 <= i < |ts| ==> ts[i] in all
    ensures Mirrors(Overlay(m, ts), all)
    decreases |ts|
  {
    if ts != [] {
      assert ts[0] in all && Tlv(ts[0].kind, ts[0].value) == ts[0];
      OverlayMirrors(m[ts[0].kind := ts[0].value], ts[1..], all);
    }
  }

  lemma {:induction false} SetSame(ts: seq<Tlv>, k: Byte, v: seq<Byte>, checks: Checks)
    requires TlvsOk(ts, checks) && Tlv(k, v) in ts
    ensures TlvSet(ts, k, v) == ts
  {
    var i :| 0 <= i < |ts| && ts[i] == Tlv(k, v);
    assert HasKind(ts, k);
    ReplacedAt(ts, i, k, v);
  }

  lemma {:induction false} StoreSame(ts: seq<Tlv>, m: map<Byte, seq<Byte>>, i: nat, checks: Checks)
    requires i <= |ORDER| && TlvsOk(ts, checks) && Mirrors(m, ts)
    ensures Store(ts, m, i) == ts
    decreases |ORDER| - i
  {
    if i < |ORDER| {
      if ORDER[i] in m { SetSame(ts, ORDER[i], m[ORDER[i]], checks); }
      StoreSame(ts, m, i + 1, checks);
    }
  }

  lemma {:induction false} NamesMirrored(m: map<Byte, seq<Byte>>, e: Entry, checks: Checks)
    requires TlvsOk(e.tlvs, checks) && Mirrors(m, e.tlvs)
    ensures NamesOk(Fields(Some(e.boot), Some(e.status), m), checks)
  {
    forall k | k in m && (k == NAME || k == LOCATION) ensures NameOk(k, m[k], checks) {
      var i :| 0 <= i < |e.tlvs| && e.tlvs[i] == Tlv(k, m[k]);
    }
  }

  /** The report of any entry that Sets have built, sent back as a Set, is accepted and leaves the whole
      list as it was. */
  lemma {:induction false} ReportIsFixpoint(s: Slots, i: nat, network: Network, cmdClass: Byte, cmd: Byte, seqNo: Byte, checks: Checks)
    requires ListOk(s, checks) && i < |s| && s[i].Some?
    ensures Encodable(s[i].value.tlvs) && |s[i].value.dsk| < DSK_LENGTH_MASK
    ensures Set(s, ReportAsSet(s[i].value, network, cmdClass, cmd, seqNo), checks) == (s, Handled)
  {
    var e := s[i].value;
    OkIsEncodable(e.tlvs, checks);
    var frame := ReportAsSet(e, network, cmdClass, cmd, seqNo);
    var n := |e.dsk|;
    assert frame[3] % DSK_LENGTH_MASK == n && frame[4..4 + n] == e.dsk && frame[4 + n..] == ReportTlvs(e, network);
    ParseReport(e, network, checks);
    var m := Overlay(map[], e.tlvs);
    OverlayMirrors(map[], e.tlvs, e.tlvs);
    NamesMirrored(m, e, checks);
    StoreSame(e.tlvs, m, 0, checks);
    assert FindDsk(s, e.dsk) == i;
    assert s[i := Some(e)] == s;
  }

  // ---------------------------------------------------------------- what a Set writes

  // pvs_tlv_get
  function ValueOf(ts: seq<Tlv>, kind: Byte): Option<seq<Byte>> {
    if ts == [] then None else if ts[0].kind == kind then Some(ts[0].value) else ValueOf(ts[1..], kind)
  }

  lemma {:induction false} HasKindTail(ts: seq<Tlv>, kind: Byte)
    requires ts != []
    ensures HasKind(ts, kind) <==> ts[0].kind == kind || HasKind(ts[1..], kind)
  {
    if HasKind(ts, kind) && ts[0].kind != kind {
      var i :| 0 <= i < |ts| && ts[i].kind == kind;
      assert ts[1..][i - 1].kind == kind;
    }
    if HasKind(ts[1..], kind) {
      var i :| 0 <= i < |ts[1..]| && ts[1..][i].kind == kind;
      assert ts[i + 1].kind == kind;
    }
  }

  lemma {:induction false} ReplacedReadsBack(ts: seq<Tlv>, kind: Byte, value: seq<Byte>, j: Byte)
    ensures j != kind ==> ValueOf(Replaced(ts, kind, value), j) == ValueOf(ts, j)
    ensures HasKind(ts, kind) ==> ValueOf(Replaced(ts, kind, value), kind) == Some(value)
  {
    if ts != [] {
      HasKindTail(ts, kind);
      ReplacedReadsBack(ts[1..], kind, value, j);
      var r := Replaced(ts, kind, value);
      if ts[0].kind == kind { assert r[1..] == ts[1..]; } else { assert r[1..] == Replaced(ts[1..], kind, value); }
    }
  }

  lemma {:induction false} TlvSetReadsBack(ts: seq<Tlv>, kind: Byte, value: seq<Byte>, j: Byte)
    ensures j == kind && value != [] ==> ValueOf(TlvSet(ts, kind, value), j) == Some(value)
    ensures j != kind || value == [] ==> ValueOf(TlvSet(ts, kind, value), j) == ValueOf(ts, j)
  {
    if value != [] {
      if HasKind(ts, kind) { ReplacedReadsBack(ts, kind, value, j); }
      else { assert ([Tlv(kind, value)] + ts)[1..] == ts; }
    }
  }

  // The fields that the store writes from position `i` on.
  predicate Written(m: map<Byte, seq<Byte>>, i: nat, j: Byte)
    requires i <= |ORDER|
  {
    j in ORDER[i..] && j in m && m[j] != []
  }

  // One step of the writing order.
  lemma {:induction false} WrittenStep(m: map<Byte, seq<Byte>>, i: nat, j: Byte)
    requires i < |ORDER|
    ensures ORDER[i] == j ==> !Written(m, i + 1, j) && (Written(m, i, j) <==> j in m && m[j] != [])
    ensures ORDER[i] != j ==> (Written(m, i, j) <==> Written(m, i + 1, j))
  {
    assert ORDER[i..] == [ORDER[i]] + ORDER[i + 1..];
    OrderDistinct(i);
  }

  /** After a Set an element reads back as the Set gave it, or as before if the Set did not mention it. */
  lemma {:induction false} StoreReadsBack(ts: seq<Tlv>, m: map<Byte, seq<Byte>>, i: nat, j: Byte)
    requires i <= |ORDER|
    ensures Written(m, i, j) ==> ValueOf(Store(ts, m, i), j) == Some(m[j])
    ensures !Written(m, i, j) ==> ValueOf(Store(ts, m, i), j) == ValueOf(ts, j)
    decreases |ORDER| - i
  {
    if i < |ORDER| {
      var k := ORDER[i];
      var u := if k in m then TlvSet(ts, k, m[k]) else ts;
      if k in m { TlvSetReadsBack(ts, k, m[k], j); }
      StoreReadsBack(u, m, i + 1, j);
      WrittenStep(m, i, j);
    }
  }

  lemma {:induction false} OrderDistinct(i: nat)
    requires i < |ORDER|
    ensures ORDER[i] !in ORDER[i + 1..]
  {
  }
}
