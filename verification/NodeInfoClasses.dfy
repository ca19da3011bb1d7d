/** The extra command classes a client can add to the gateway's node information
    (src/CC_Gateway.c): the parser of the Set command and the payload of the Report. */
module NodeInfoClasses {
  import opened Common

  const EXTENDED := 0xF1      // from here on a class has two bytes; with a zero second byte, the secure mark
  const CONTROL_MARK := 0xEF

  datatype Mode = Insecure | Control | Secure

  datatype Classes = Classes(plain: seq<Byte>, secure: seq<Byte>)

  // A class byte lands in the list of the current mode; controlled classes are dropped.
  function Put(c: Classes, mode: Mode, x: Byte): Classes {
    match mode
    case Insecure => c.(plain := c.plain + [x])
    case Secure => c.(secure := c.secure + [x])
    case Control => c
  }

  // The loop of cmd_cls_parse. `beyond` is the byte after the end, which a lone last byte of a
  // two-byte class makes it read. Of such a class only the first byte is counted.
  function Scan(b: seq<Byte>, beyond: Byte, mode: Mode, c: Classes): Classes
    decreases |b|
  {
    if b == [] then c
    else if b[0] >= EXTENDED then
      var second := if |b| > 1 then b[1] else beyond;
      var rest := if |b| > 1 then b[2..] else [];
      if second == 0 then Scan(rest, beyond, Secure, c) else Scan(rest, beyond, mode, Put(c, mode, b[0]))
    else if b[0] == CONTROL_MARK then Scan(b[1..], beyond, Control, c)
    else Scan(b[1..], beyond, mode, Put(c, mode, b[0]))
  }

  const NONE := Classes([], [])

  function Parse(b: seq<Byte>, beyond: Byte): Classes { Scan(b, beyond, Insecure, NONE) }

  // ---------------------------------------------------------------- room

  const PARSER_ROOM := 64   // of each list the parser fills
  const CONFIG_ROOM := 32   // of each list of the configuration
  const TEXT_ROOM := 320    // of the line for the configuration file

  // The parser's list of the current mode has room for `n` more bytes.
  predicate HasRoom(c: Classes, mode: Mode, n: nat) {
    match mode
    case Insecure => |c.plain| + n <= PARSER_ROOM
    case Secure => |c.secure| + n <= PARSER_ROOM
    case Control => true
  }

  // Every write of the parser is within its lists. A two-byte class writes one byte more than it counts.
  predicate ScanFits(b: seq<Byte>, beyond: Byte, mode: Mode, c: Classes)
    decreases |b|
  {
    if b == [] then true
    else if b[0] >= EXTENDED then
      var second := if |b| > 1 then b[1] else beyond;
      var rest := if |b| > 1 then b[2..] else [];
      if second == 0 then ScanFits(rest, beyond, Secure, c)
      else HasRoom(c, mode, 2) && ScanFits(rest, beyond, mode, Put(c, mode, b[0]))
    else if b[0] == CONTROL_MARK then ScanFits(b[1..], beyond, Control, c)
    else HasRoom(c, mode, 1) && ScanFits(b[1..], beyond, mode, Put(c, mode, b[0]))
  }

  // Five characters for each class, seven for the mark, and the closing zero.
  function TextSize(c: Classes): nat { 5 * |c.plain| + 7 + 5 * |c.secure| + 1 }

  // An overrun writes past a buffer; what the code does then is not defined.
  datatype Outcome = Refused | Overrun | Stored(classes: Classes)

  // The handler cuts the length of the payload to eight bits: the parser sees the payload up to there...
  function Seen(b: seq<Byte>): seq<Byte> { b[..|b| % 256] }

  // ...and what it finds behind is the rest of the payload, or the byte after it.
  function Behind(b: seq<Byte>, beyond: Byte): Byte { if |b| < 256 then beyond else b[|b| % 256] }

  // COMMAND_APPLICATION_NODE_INFO_SET: a payload seen as empty is refused.
  function Set(b: seq<Byte>, beyond: Byte): Outcome { SetSeen(Seen(b), Behind(b, beyond)) }

  function SetSeen(b: seq<Byte>, beyond: Byte): Outcome {
    if b == [] then Refused
    else if !ScanFits(b, beyond, Insecure, NONE) then Overrun
    else
      var c := Parse(b, beyond);
      if |c.plain| <= CONFIG_ROOM && |c.secure| <= CONFIG_ROOM && TextSize(c) <= TEXT_ROOM then Stored(c) else Overrun
  }

  // The configuration after a Set that stayed within the buffers.
  function Configured(before: Classes, o: Outcome): Classes { if o.Stored? then o.classes else before }

  // What the configuration can hold: 32 classes in each list, but 62 in all.
  predicate Holds(c: Classes) { |c.plain| <= 32 && |c.secure| <= 32 && |c.plain| + |c.secure| <= 62 }

  // A scan only adds classes, so a result that fits the configuration was within the parser's lists
  // all the way.
  lemma {:induction false} SmallScanFits(b: seq<Byte>, beyond: Byte, mode: Mode, c: Classes)
    ensures var d := Scan(b, beyond, mode, c);
      && |c.plain| <= |d.plain| && |c.secure| <= |d.secure|
      && (Holds(d) ==> ScanFits(b, beyond, mode, c))
    decreases |b|
  {
    if b != [] {
      if b[0] >= EXTENDED {
        var second := if |b| > 1 then b[1] else beyond;
        var rest := if |b| > 1 then b[2..] else [];
        if second == 0 { SmallScanFits(rest, beyond, Secure, c); }
        else { SmallScanFits(rest, beyond, mode, Put(c, mode, b[0])); }
      } else if b[0] == CONTROL_MARK {
        SmallScanFits(b[1..], beyond, Control, c);
      } else {
        SmallScanFits(b[1..], beyond, mode, Put(c, mode, b[0]));
      }
    }
  }

  /** A Set stays within all buffers if and only if the payload up to its length modulo 256 is empty, and
      so refused, or names at most 32 plain and 32 secure classes, and at most 62 together: the line
      for the configuration file has no room for more. */
  lemma {:induction false} SetFitsIff(b: seq<Byte>, beyond: Byte)
    ensures var seen, behind := Seen(b), Behind(b, beyond);
      Set(b, beyond) ==
      if seen == [] then Refused else if Holds(Parse(seen, behind)) then Stored(Parse(seen, behind)) else Overrun
  {
    SmallScanFits(Seen(b), Behind(b, beyond), Insecure, NONE);
  }

  lemma {:induction false} ShortIsSeen(b: seq<Byte>, beyond: Byte)
    requires |b| < 256
    ensures Seen(b) == b && Behind(b, beyond) == beyond
  {
  }

  /** The cut makes long payloads behave as short ones: of 256 bytes and some the first few are stored, and
      256 bytes change nothing. */
  lemma {:induction false} LongPayloadIsCut(b: seq<Byte>, more: seq<Byte>, beyond: Byte)
    requires |b| < 256 && |more| > 0 && |more| % 256 == 0
    ensures Set(b + more, beyond) == Set(b, more[0])
  {
    assert |b + more| % 256 == |b| && (b + more)[..|b|] == b && (b + more)[|b|] == more[0];
    ShortIsSeen(b, more[0]);
  }

  // COMMAND_APPLICATION_NODE_INFO_GET
  function Print(c: Classes): seq<Byte> {
    c.plain + if c.secure == [] then [] else [0xF1, 0x00] + c.secure
  }

  predicate OneByte(s: seq<Byte>) { forall i :: 0 <= i < |s| ==> s[i] < EXTENDED && s[i] != CONTROL_MARK }

  lemma {:induction false} ScanPlain(s: seq<Byte>, rest: seq<Byte>, beyond: Byte, mode: Mode, c: Classes)
    requires OneByte(s) && mode != Control
    ensures mode == Insecure ==> Scan(s + rest, beyond, mode, c) == Scan(rest, beyond, mode, c.(plain := c.plain + s))
    ensures mode == Secure ==> Scan(s + rest, beyond, mode, c) == Scan(rest, beyond, mode, c.(secure := c.secure + s))
    decreases |s|
  {
    if s == [] {
      assert s + rest == rest && c.plain + s == c.plain && c.secure + s == c.secure;
    } else {
      assert (s + rest)[1..] == s[1..] + rest;
      ScanPlain(s[1..], rest, beyond, mode, Put(c, mode, s[0]));
      assert c.plain + s == c.plain + [s[0]] + s[1..];
      assert c.secure + s == c.secure + [s[0]] + s[1..];
    }
  }

  /** What a Report prints a Set reads back exactly, for all lists of one-byte classes not both empty, if
      and only if the configuration can hold them; others overrun it, unless the length is cut. */
  lemma {:induction false} ParsePrint(c: Classes, beyond: Byte)
    requires OneByte(c.plain) && OneByte(c.secure) && c != NONE
    ensures Set(Print(c), beyond) == Stored(c) <==> Holds(c)
    ensures !Holds(c) && |Print(c)| < 256 ==> Set(Print(c), beyond) == Overrun
  {
    var tail: seq<Byte> := if c.secure == [] then [] else [0xF1, 0x00] + c.secure;
    ScanPlain(c.plain, tail, beyond, Insecure, NONE);
    var c1 := Classes(c.plain, []);
    assert NONE.plain + c.plain == c.plain;
    if c.secure == [] {
      assert c1 == c;
    } else {
      assert tail[2..] == c.secure && c.secure + [] == c.secure && [] + c.secure == c.secure;
      ScanPlain(c.secure, [], beyond, Secure, c1);
    }
    SetFitsIff(Print(c), beyond);
    if |Print(c)| < 256 { ShortIsSeen(Print(c), beyond); }
  }

  // No class of two bytes, and none cut off at the end: bytes from 0xF1 on only as secure marks.
  predicate NoExtended(b: seq<Byte>)
    decreases |b|
  {
    if b == [] then true
    else if b[0] >= EXTENDED then |b| > 1 && b[1] == 0 && NoExtended(b[2..])
    else NoExtended(b[1..])
  }

  lemma {:induction false} ScanOneByte(b: seq<Byte>, beyond: Byte, mode: Mode, c: Classes)
    requires NoExtended(b) && OneByte(c.plain) && OneByte(c.secure)
    ensures var d := Scan(b, beyond, mode, c); OneByte(d.plain) && OneByte(d.secure)
    decreases |b|
  {
    if b != [] {
      if b[0] >= EXTENDED { ScanOneByte(b[2..], beyond, Secure, c); }
      else if b[0] == CONTROL_MARK { ScanOneByte(b[1..], beyond, Control, c); }
      else { ScanOneByte(b[1..], beyond, mode, Put(c, mode, b[0])); }
    }
  }

  /** A Set of any payload without two-byte classes that stays within the buffers, then a Get, then a Set
      of what was got: the configuration stays, whatever order and marks the first payload used. */
  lemma {:induction false} ReportIsCanonical(b: seq<Byte>, beyond: Byte, later: Byte)
    requires NoExtended(Seen(b)) && Set(b, beyond).Stored?
    ensures var c := Set(b, beyond).classes;
      !Set(Print(c), later).Overrun? && Configured(c, Set(Print(c), later)) == c
  {
    var c := Set(b, beyond).classes;
    SetFitsIff(b, beyond);
    ScanOneByte(Seen(b), Behind(b, beyond), Insecure, NONE);
    if c != NONE { ParsePrint(c, later); }
  }

  /** A two-byte class loses its second byte: what is read back is not what was set. */
  lemma {:induction false} ExtendedLosesByte(x: Byte, y: Byte, beyond: Byte)
    requires x >= EXTENDED && y != 0
    ensures Set([x, y], beyond) == Stored(Classes([x], []))
    ensures Print(Set([x, y], beyond).classes) != [x, y]
  {
    var c := Classes([x], []);
    assert [x, y][2..] == [];
    assert Put(NONE, Insecure, x) == c;
    assert Scan([], beyond, Insecure, c) == c;
    ShortIsSeen([x, y], beyond);
    SetFitsIff([x, y], beyond);
  }

  // ---------------------------------------------------------------- when nothing is lost

  function Size(c: Classes): nat { |c.plain| + |c.secure| }

  // Every byte is counted as a class: no marks, and at most a lone first byte of a class at the end.
  predicate Counted(b: seq<Byte>, beyond: Byte)
    decreases |b|
  {
    b == [] || if b[0] >= EXTENDED then |b| == 1 && beyond != 0 else b[0] != CONTROL_MARK && Counted(b[1..], beyond)
  }

  // One secure mark with classes after it, every other byte counted.
  predicate Marked(b: seq<Byte>, beyond: Byte)
    decreases |b|
  {
    b != [] && if b[0] >= EXTENDED then |b| > 2 && b[1] == 0 && Counted(b[2..], beyond)
               else b[0] != CONTROL_MARK && Marked(b[1..], beyond)
  }

  // The mark is written as the Report writes it.
  predicate UsualMark(b: seq<Byte>) { forall i :: 0 <= i < |b| - 1 && b[i] >= EXTENDED ==> b[i] == 0xF1 }

  // Where the mark of a marked payload stands.
  function MarkAt(b: seq<Byte>): nat {
    if b == [] || b[0] >= EXTENDED then 0 else 1 + MarkAt(b[1..])
  }

  // The payload itself shows whether its classes fit: in all, before the mark and after it.
  predicate PayloadFits(b: seq<Byte>, beyond: Byte) {
    if Counted(b, beyond) then |b| <= 32
    else MarkAt(b) <= 32 && |b| - 2 - MarkAt(b) <= 32 && |b| <= 64
  }

  // Scanning never counts more than there is, and loses something unless all is counted.
  lemma {:induction false} ScanLoses(b: seq<Byte>, beyond: Byte, mode: Mode, c: Classes)
    ensures Size(Scan(b, beyond, mode, c)) <= Size(c) + |b|
    ensures !Counted(b, beyond) ==> Size(Scan(b, beyond, mode, c)) < Size(c) + |b|
    ensures mode == Control && b != [] ==> Size(Scan(b, beyond, mode, c)) < Size(c) + |b|
    decreases |b|
  {
    if b != [] {
      if b[0] >= EXTENDED {
        var second := if |b| > 1 then b[1] else beyond;
        var rest := if |b| > 1 then b[2..] else [];
        if second == 0 { ScanLoses(rest, beyond, Secure, c); } else { ScanLoses(rest, beyond, mode, Put(c, mode, b[0])); }
      } else if b[0] == CONTROL_MARK {
        ScanLoses(b[1..], beyond, Control, c);
      } else {
        ScanLoses(b[1..], beyond, mode, Put(c, mode, b[0]));
      }
    }
  }

  // A scan that adds secure classes has passed a mark: it loses two bytes, and no more only if Marked.
  lemma {:induction false} SecureLosesTwo(b: seq<Byte>, beyond: Byte, mode: Mode, c: Classes)
    requires mode != Secure
    ensures var d := Scan(b, beyond, mode, c); d.secure != c.secure ==>
      Size(d) <= Size(c) + |b| - 2 && (Size(d) == Size(c) + |b| - 2 ==> Marked(b, beyond))
    decreases |b|
  {
    if b != [] {
      if b[0] >= EXTENDED {
        var second := if |b| > 1 then b[1] else beyond;
        var rest := if |b| > 1 then b[2..] else [];
        if second == 0 { ScanLoses(rest, beyond, Secure, c); } else { SecureLosesTwo(rest, beyond, mode, Put(c, mode, b[0])); }
      } else if b[0] == CONTROL_MARK {
        SecureLosesTwo(b[1..], beyond, Control, c);
      } else {
        SecureLosesTwo(b[1..], beyond, mode, Put(c, mode, b[0]));
      }
    }
  }

  function PutAll(c: Classes, mode: Mode, s: seq<Byte>): Classes {
    match mode
    case Insecure => c.(plain := c.plain + s)
    case Secure => c.(secure := c.secure + s)
    case Control => c
  }

  lemma {:induction false} ScanCounted(b: seq<Byte>, beyond: Byte, mode: Mode, c: Classes)
    requires Counted(b, beyond) && mode != Control
    ensures Scan(b, beyond, mode, c) == PutAll(c, mode, b)
    decreases |b|
  {
    if b == [] {
      assert c.plain + b == c.plain && c.secure + b == c.secure;
    } else {
      var d := Put(c, mode, b[0]);
      if b[0] >= EXTENDED {
        assert b == [b[0]];
      } else {
        ScanCounted(b[1..], beyond, mode, d);
        assert c.plain + b == c.plain + [b[0]] + b[1..];
        assert c.secure + b == c.secure + [b[0]] + b[1..];
      }
    }
  }

  lemma {:induction false} ScanMarked(b: seq<Byte>, beyond: Byte, c: Classes) returns (s: seq<Byte>, m: Byte, t: seq<Byte>)
    requires Marked(b, beyond)
    ensures b == s + [m, 0x00] + t && m >= EXTENDED && t != [] && |s| == MarkAt(b)
    ensures Scan(b, beyond, Insecure, c) == Classes(c.plain + s, c.secure + t)
    decreases |b|
  {
    if b[0] >= EXTENDED {
      s, m, t := [], b[0], b[2..];
      ScanCounted(t, beyond, Secure, c);
      assert c.plain + s == c.plain;
    } else {
      s, m, t := ScanMarked(b[1..], beyond, Put(c, Insecure, b[0]));
      assert c.plain + ([b[0]] + s) == c.plain + [b[0]] + s;
      s := [b[0]] + s;
    }
  }

  /** A Get after a Set returns the very payload of the Set if and only if the payload has no control
      mark and no complete two-byte class, and at most one secure mark, which is F1 00 and has classes
      after it, and its classes fit: at most 32 without the mark and after it, and 62 together. */
  lemma {:induction false} GetReturnsSetIff(b: seq<Byte>, beyond: Byte)
    requires b != []
    ensures Set(b, beyond).Stored? && Print(Set(b, beyond).classes) == b <==>
      (Counted(b, beyond) || (Marked(b, beyond) && UsualMark(b))) && PayloadFits(b, beyond)
  {
    SetFitsIff(b, beyond);
    if |b| < 256 {
      ShortIsSeen(b, beyond);
      ShortReturnsIff(b, beyond);
    }
  }

  lemma {:induction false} ShortReturnsIff(b: seq<Byte>, beyond: Byte)
    requires b != []
    ensures Holds(Parse(b, beyond)) && Print(Parse(b, beyond)) == b <==>
      (Counted(b, beyond) || (Marked(b, beyond) && UsualMark(b))) && PayloadFits(b, beyond)
  {
    if Counted(b, beyond) {
      ScanCounted(b, beyond, Insecure, NONE);
      assert [] + b == b;
    } else if Marked(b, beyond) {
      MarkedReturnsIff(b, beyond);
    } else {
      ScanLoses(b, beyond, Insecure, NONE);
      SecureLosesTwo(b, beyond, Insecure, NONE);
    }
  }

  lemma {:induction false} MarkedReturnsIff(b: seq<Byte>, beyond: Byte)
    requires Marked(b, beyond)
    ensures Print(Parse(b, beyond)) == b <==> UsualMark(b)
    ensures Holds(Parse(b, beyond)) <==> MarkAt(b) <= 32 && |b| - 2 - MarkAt(b) <= 32 && |b| <= 64
  {
    var s, m, t := ScanMarked(b, beyond, NONE);
    assert [] + s == s && [] + t == t;
    assert Print(Parse(b, beyond)) == s + [0xF1, 0x00] + t;
    assert b[|s|] == m && (s + [0xF1, 0x00] + t)[|s|] == 0xF1;
    if m == 0xF1 { MarkedUsual(b, beyond, |s|); }
  }

  // In a marked payload only the mark, and perhaps the last byte, is a byte of a two-byte class.
  lemma {:induction false} MarkedUsual(b: seq<Byte>, beyond: Byte, k: nat)
    requires Marked(b, beyond) && k < |b| - 1 && b[k] == 0xF1
    ensures UsualMark(b)
    decreases |b|
  {
    if b[0] >= EXTENDED {
      CountedUsual(b[2..], beyond);
      assert forall i :: 2 <= i < |b| - 1 ==> b[i] == b[2..][i - 2];
    } else {
      assert b[1..][k - 1] == b[k];
      MarkedUsual(b[1..], beyond, k - 1);
      forall i | 0 <= i < |b| - 1 && b[i] >= EXTENDED ensures b[i] == 0xF1 { assert b[1..][i - 1] == b[i]; }
    }
  }

  lemma {:induction false} CountedUsual(b: seq<Byte>, beyond: Byte)
    requires Counted(b, beyond)
    ensures forall i :: 0 <= i < |b| - 1 ==> b[i] < EXTENDED
    decreases |b|
  {
    if b != [] && b[0] < EXTENDED {
      CountedUsual(b[1..], beyond);
      forall i | 0 <= i < |b| - 1 ensures b[i] < EXTENDED { if i > 0 { assert b[1..][i - 1] == b[i]; } }
    }
  }
}
