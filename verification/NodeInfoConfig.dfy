/** The extra command classes as the code keeps them: two buffers of fixed size in the configuration,
    filled by a parser through two larger ones. */
module NodeInfoConfig {
  import opened Common
  import opened NodeInfoClasses

  /** cmd_cls_parse on the first `len` bytes of the payload. `plain` and `secure` are the caller's buffers;
      the result says how much of each is filled, or nothing if a write would have been past the end. */
  method CmdClsParse(payload: seq<Byte>, len: Byte, beyond: Byte, plain: array<Byte>, secure: array<Byte>)
    returns (r: Option<(nat, nat)>)
    requires len <= |payload|
    requires plain.Length == PARSER_ROOM && secure.Length == PARSER_ROOM && plain != secure
    modifies plain, secure
    ensures var b, behind := payload[..len], if len < |payload| then payload[len] else beyond;
      && (r.Some? <==> ScanFits(b, behind, Insecure, NONE))
      && (r.Some? ==> r.value.0 <= PARSER_ROOM && r.value.1 <= PARSER_ROOM &&
                      Classes(plain[..r.value.0], secure[..r.value.1]) == Parse(b, behind))
  {
    var cnt, cntSec, i := 0, 0, 0;
    var mode := Insecure;
    ghost var b, behind := payload[..len], if len < |payload| then payload[len] else beyond;
    while i < len
      invariant 0 <= i && 0 <= cnt <= PARSER_ROOM && 0 <= cntSec <= PARSER_ROOM
      invariant var rest, c := if i <= |b| then b[i..] else [], Classes(plain[..cnt], secure[..cntSec]);
        && Scan(rest, behind, mode, c) == Parse(b, behind)
        && (ScanFits(rest, behind, mode, c) <==> ScanFits(b, behind, Insecure, NONE))
      decreases len - i
    {
      assert i + 1 <= |b| ==> b[i..][1..] == b[i + 1..];
      assert i + 2 <= |b| ==> b[i..][2..] == b[i + 2..];
      var x, second := payload[i], if i + 1 < |payload| then payload[i + 1] else beyond;
      if x == CONTROL_MARK {
        mode := Control;
      } else if x >= EXTENDED && second == 0 {
        mode := Secure;
      } else if mode == Insecure {
        cnt := PutByte(plain, cnt, x, second);
        if cnt < 0 { return None; }
      } else if mode == Secure {
        cntSec := PutByte(secure, cntSec, x, second);
        if cntSec < 0 { return None; }
      }
      i := i + if x >= EXTENDED then 2 else 1;
    }
    return Some((cnt, cntSec));
  }

  // One class goes to the end of a buffer; the second byte of a two-byte class goes behind it, where the
  // next class will overwrite it. A negative count stands for a write past the end.
  method PutByte(buf: array<Byte>, cnt: nat, x: Byte, second: Byte) returns (n: int)
    requires cnt <= buf.Length
    modifies buf
    ensures n < 0 <==> buf.Length < cnt + if x >= EXTENDED then 2 else 1
    ensures n >= 0 ==> n == cnt + 1 && n <= buf.Length && buf[..n] == old(buf[..cnt]) + [x]
  {
    if buf.Length < cnt + if x >= EXTENDED then 2 else 1 { return -1; }
    buf[cnt] := x;
    if x >= EXTENDED { buf[cnt + 1] := second; }
    assert buf[..cnt + 1] == buf[..cnt] + [x];
    return cnt + 1;
  }

  class Config {
    const extra: array<Byte>
    const secExtra: array<Byte>
    var extraLen: nat
    var secExtraLen: nat

    ghost predicate Valid()
      reads this
    {
      && extra.Length == CONFIG_ROOM && secExtra.Length == CONFIG_ROOM && extra != secExtra
      && extraLen <= CONFIG_ROOM && secExtraLen <= CONFIG_ROOM
    }

    ghost function Contents(): Classes
      requires Valid()
      reads this, extra, secExtra
    {
      Classes(extra[..extraLen], secExtra[..secExtraLen])
    }

    constructor ()
      ensures Valid() && Contents() == NONE
    {
      extra, secExtra := new Byte[CONFIG_ROOM], new Byte[CONFIG_ROOM];
      extraLen, secExtraLen := 0, 0;
    }

    // COMMAND_APPLICATION_NODE_INFO_SET
    method SetNodeInfo(b: seq<Byte>, beyond: Byte) returns (o: Outcome)
      requires Valid()
      modifies this, extra, secExtra
      ensures Valid()
      ensures o == Set(b, beyond)
      ensures !o.Overrun? ==> Contents() == Configured(old(Contents()), o)
    {
      var len: Byte := |b| % 256;
      if len == 0 { return Refused; }
      var plain, secure := new Byte[PARSER_ROOM], new Byte[PARSER_ROOM];
      var counts := CmdClsParse(b, len, beyond, plain, secure);
      if counts.None? { return Overrun; }
      var (cnt, cntSec) := counts.value;
      if cnt > CONFIG_ROOM || cntSec > CONFIG_ROOM || 5 * cnt + 7 + 5 * cntSec + 1 > TEXT_ROOM { return Overrun; }
      extraLen, secExtraLen := cnt, cntSec;
      Copy(plain, extra, cnt);
      Copy(secure, secExtra, cntSec);
      o := Stored(Classes(extra[..cnt], secExtra[..cntSec]));
    }

    // COMMAND_APPLICATION_NODE_INFO_GET
    method GetNodeInfo() returns (payload: seq<Byte>)
      requires Valid()
      ensures payload == Print(Contents())
    {
      payload := extra[..extraLen];
      if secExtraLen != 0 { payload := payload + [0xF1, 0x00] + secExtra[..secExtraLen]; }
    }
  }

  method Copy(from: array<Byte>, to: array<Byte>, n: nat)
    requires n <= from.Length && n <= to.Length && from != to
    modifies to
    ensures to[..n] == from[..n]
  {
    for i := 0 to n
      invariant to[..i] == from[..i]
    {
      to[i] := from[i];
      assert to[..i + 1] == to[..i] + [from[i]] && from[..i + 1] == from[..i] + [from[i]];
    }
  }
}
