/** The credential cache (`CredentialCache`): a u16 version, a block of
    tagged headers, the default principal, then credentials one after the
    other until the file ends. */
module CredentialCache {
  import opened Bytes
  import opened Wrappers
  import opened Stream
  import opened Names
  import opened Krb5File

  /** One `(tag, tagdata)` pair of the header block. */
  datatype Header = Header(tag: u16, data: seq<byte>)

  /** The four u32 times of a credential (`_read_times`). */
  datatype Times = Times(authtime: u32, starttime: u32, endtime: u32, renewTill: u32)

  /** One credential (the dictionary the cache's `_load_entry` builds);
      `ticketFlags` is the little-endian `tktflags`. */
  datatype Credential = Credential(
    client: Principal, server: Principal, key: KeyBlock, times: Times,
    isSkey: u8, ticketFlags: u32, addrs: seq<seq<byte>>, authdata: seq<seq<byte>>,
    ticket: seq<byte>, ticket2: seq<byte>)

  /** The exception that escapes `load` from `_load_intro`, outside the
      entry loop's `try`. */
  datatype Raised = RaisedEOFError | RaisedStructError

  /** What `load` leaves behind: a `struct.error` on the version, an
      exception from `_load_intro` (with the headers when they were read), or
      the intro and the credentials read before the loop stopped. */
  datatype Loaded =
    | NoVersion
    | NoIntro(version: u16, width: ArrayWidth, headersRead: Option<seq<Header>>, raised: Raised)
    | Loaded(version: u16, width: ArrayWidth, headers: seq<Header>, defaultPrincipal: Principal,
             credentials: seq<Credential>, ending: Ending)

  // ---------------------------------------------------------------- decoding

  /** One turn of the loop of `_read_headers`: a u16 tag, a u16 length,
      then that many bytes (fewer when the file ends first). */
  function HeaderAt(data: seq<byte>, pos: nat): (r: Step<Header>)
    requires pos <= |data|
    ensures !r.Eof?
    ensures r.Ok? <==> pos + 4 <= |data|
    ensures r.Ok? ==> r.next == pos + 4 + |r.value.data| <= |data|
    ensures r.Ok? ==> r.value.tag == UInt(data[pos..pos + 2])
    ensures r.Ok? ==> r.value.data == data[pos + 4..r.next]
    ensures r.Ok? ==> |r.value.data| == Min(UInt(data[pos + 2..pos + 4]), |data| - (pos + 4))
  {
    var tag :- U16At(data, pos);
    var length :- U16At(data, tag.1);
    var tagdata := Window(data, length.1, length.0);
    Ok(Header(tag.0, tagdata), length.1 + |tagdata|)
  }

  /** The loop of `_read_headers` from `pos` while the position is below
      `limit`. */
  function HeaderLoop(data: seq<byte>, pos: nat, limit: nat): (r: Step<seq<Header>>)
    requires pos <= |data|
    ensures !r.Eof?
    ensures r.Ok? ==> limit <= r.next <= |data| && (pos < limit ==> pos < r.next)
    ensures pos >= limit ==> r == Ok([], pos)
    decreases |data| - pos
  {
    if pos >= limit then Ok([], pos)
    else
      match HeaderAt(data, pos)
      case Ok(header, next) => Cons([header], HeaderLoop(data, next, limit))
      case _ => StructError
  }

  /** `_read_headers`: the u16 length of the block, then the loop. */
  function HeadersAt(data: seq<byte>, pos: nat): (r: Step<seq<Header>>)
    requires pos <= |data|
    ensures !r.Eof?
    ensures r.Ok? ==> pos + 2 <= |data| && pos + 2 + UInt(data[pos..pos + 2]) <= r.next <= |data|
  {
    match U16At(data, pos)
    case Ok(length, p) => HeaderLoop(data, p, p + length)
    case _ => StructError
  }

  /** `_read_times`. */
  function TimesAt(data: seq<byte>, pos: nat): (r: Step<Times>)
    requires pos <= |data|
    ensures !r.Eof?
    ensures r.Ok? <==> pos + 16 <= |data|
    ensures r.Ok? ==> r.next == pos + 16
  {
    var authtime :- U32At(data, pos);
    var starttime :- U32At(data, pos + 4);
    var endtime :- U32At(data, pos + 8);
    var renewTill :- U32At(data, pos + 12);
    Ok(Times(authtime.0, starttime.0, endtime.0, renewTill.0), pos + 16)
  }

  /** `_read_segments`: a u32 count, then that many arrays. */
  function SegmentsAt(lay: Layout, data: seq<byte>, pos: nat): (r: Step<seq<seq<byte>>>)
    requires pos <= |data|
    ensures !r.Eof?
    ensures r.Ok? ==> pos + 4 <= r.next <= |data| && |r.value| == UInt(data[pos..pos + 4])
  {
    var count :- U32At(data, pos);
    ArraysAt(lay, data, count.1, count.0)
  }

  /** The cache's `_load_entry`: a client or a server principal cut short in
      its leading fields is the `EOFError` that ends the loop; every later
      field cut short is a `struct.error`. */
  function CredentialAt(lay: Layout, data: seq<byte>, pos: nat): (r: Step<Credential>)
    requires pos <= |data|
    ensures r.Ok? ==> pos < r.next <= |data|
    ensures r.Eof? <==> (pos + LeadWidth(lay) > |data| ||
                         (PrincipalAt(lay, data, pos).Ok? && PrincipalAt(lay, data, pos).next + LeadWidth(lay) > |data|))
  {
    match PrincipalAt(lay, data, pos)
    case Eof => Eof
    case StructError => StructError
    case Ok(client, p) =>
      match PrincipalAt(lay, data, p)
      case Eof => Eof
      case StructError => StructError
      case Ok(server, q) => CredentialAfter(lay, data, client, server, q)
  }

  /** The fields that follow the two principals; none of them can end the
      loop cleanly. */
  function CredentialAfter(lay: Layout, data: seq<byte>, client: Principal, server: Principal, pos: nat)
    : (r: Step<Credential>)
    requires pos <= |data|
    ensures !r.Eof?
    ensures r.Ok? ==> pos + 33 <= r.next <= |data| && r.value.client == client && r.value.server == server
  {
    var fixed :- FixedAt(lay, data, client, server, pos);
    CredentialTail(lay, data, fixed.0, fixed.1)
  }

  /** The key block, the times, `is_skey` and the little-endian flags: a
      credential whose segments and tickets are still empty. */
  function FixedAt(lay: Layout, data: seq<byte>, client: Principal, server: Principal, pos: nat)
    : (r: Step<Credential>)
    requires pos <= |data|
    ensures !r.Eof?
    ensures r.Ok? ==> pos + 25 <= r.next <= |data|
    ensures r.Ok? ==> r.value.client == client && r.value.server == server
  {
    var key :- KeyBlockAt(lay, data, pos);
    var times :- TimesAt(data, key.1);
    var isSkey :- U8At(data, times.1);
    var flags :- U32LEAt(data, isSkey.1);
    Ok(Credential(client, server, key.0, times.0, isSkey.0, flags.0, [], [], [], []), flags.1)
  }

  /** The two lists of segments and the two tickets, which complete the
      credential `c` read so far. */
  function CredentialTail(lay: Layout, data: seq<byte>, c: Credential, pos: nat): (r: Step<Credential>)
    requires pos <= |data|
    ensures !r.Eof?
    ensures r.Ok? ==> pos + 8 <= r.next <= |data|
    ensures r.Ok? ==> (r.value.client == c.client && r.value.server == c.server && r.value.key == c.key &&
                       r.value.times == c.times && r.value.isSkey == c.isSkey && r.value.ticketFlags == c.ticketFlags)
  {
    var addrs :- SegmentsAt(lay, data, pos);
    var authdata :- SegmentsAt(lay, data, addrs.1);
    var ticket :- ArrayAt(lay, data, authdata.1);
    var ticket2 :- ArrayAt(lay, data, ticket.1);
    Ok(c.(addrs := addrs.0, authdata := authdata.0, ticket := ticket.0, ticket2 := ticket2.0), ticket2.1)
  }

  /** The loop of `load`: credentials are read until `EOFError` (a clean end)
      or a `struct.error` (which escapes `load`). */
  function CredentialsFrom(lay: Layout, data: seq<byte>, pos: nat): (s: Scan<Credential>)
    requires pos <= |data|
    ensures |s.items| <= |data| - pos
    ensures pos + LeadWidth(lay) > |data| ==> s == Scan([], EndOfFile)
    decreases |data| - pos
  {
    match CredentialAt(lay, data, pos)
    case Ok(c, next) =>
      var rest := CredentialsFrom(lay, data, next);
      Scan([c] + rest.items, rest.ending)
    case Eof => Scan([], EndOfFile)
    case StructError => Scan([], Failed)
  }

  /** `load` of a credential cache on an object whose array width is
      `width`: the version, `_load_intro` (the headers, then the default
      principal), then the credentials. */
  function Decode(data: seq<byte>, width: ArrayWidth): (r: Loaded)
    ensures r.NoVersion? <==> |data| < 2
    ensures !r.NoVersion? ==> r.version == UInt(data[..2]) && r.width == WidthAfter(r.version, width)
  {
    match U16At(data, 0)
    case Ok(version, p) =>
      var lay := Layout(version, WidthAfter(version, width));
      (match HeadersAt(data, p)
       case Ok(headers, q) =>
         (match PrincipalAt(lay, data, q)
          case Ok(principal, start) =>
            var s := CredentialsFrom(lay, data, start);
            Loaded(version, lay.width, headers, principal, s.items, s.ending)
          case Eof => NoIntro(version, lay.width, Some(headers), RaisedEOFError)
          case StructError => NoIntro(version, lay.width, Some(headers), RaisedStructError))
       case _ => NoIntro(version, lay.width, None, RaisedStructError))
    case _ => NoVersion
  }

  // ---------------------------------------------------------------- the expiry check

  /** The service name `krbtgt` of a ticket-granting ticket. */
  const Krbtgt: seq<byte> := [0x6b, 0x72, 0x62, 0x74, 0x67, 0x74]

  /** `server.split('/')[0] == "krbtgt"`. */
  predicate IsTgt(c: Credential)
    ensures IsTgt(c) <==> FirstField(c.server.value, Slash) == Krbtgt
  {
    SplitHead(c.server.value, Slash);
    Split(c.server.value, Slash)[0] == Krbtgt
  }

  /** `is_tgt_expired`: the first ticket-granting ticket decides, expired
      when its end time is at most `now + secs`; with none the method falls
      off its end (`None`). `now` is the clock reading the method takes. */
  function TgtExpired(credentials: seq<Credential>, now: int, secs: int): (r: Option<bool>)
    ensures r.Some? ==> exists c :: c in credentials && IsTgt(c) && r.value == (c.times.endtime <= now + secs)
  {
    if credentials == [] then None
    else if IsTgt(credentials[0]) then Some(credentials[0].times.endtime <= now + secs)
    else
      assert credentials == [credentials[0]] + credentials[1..];
      TgtExpired(credentials[1..], now, secs)
  }

  // ---------------------------------------------------------------- reading a cache

  /** `_read_headers`. */
  method ReadHeaders(f: File) returns (r: Step<seq<Header>>)
    requires f.Valid()
    modifies f
    ensures f.Valid()
    ensures r == HeadersAt(f.data, old(f.pos)) && (r.Ok? ==> f.pos == r.next)
  {
    var headerlen := f.ReadU16();
    if !headerlen.Ok? {
      return StructError;
    }
    var limit := f.pos + headerlen.value;
    var headers: seq<Header> := [];
    ghost var start := f.pos;
    ConsEmpty(HeaderLoop(f.data, start, limit));
    while f.pos < limit
      invariant f.Valid() && start <= f.pos
      invariant HeaderLoop(f.data, start, limit) == Cons(headers, HeaderLoop(f.data, f.pos, limit))
      decreases |f.data| - f.pos
    {
      ghost var pos := f.pos;
      var header := ReadHeader(f);
      if !header.Ok? {
        return StructError;
      }
      HeaderLoopStep(f.data, start, pos, limit, headers, header.value, f.pos);
      headers := headers + [header.value];
    }
    assert headers + [] == headers;
    r := Ok(headers, f.pos);
  }

  /** One turn of the loop of `_read_headers`. */
  method ReadHeader(f: File) returns (r: Step<Header>)
    requires f.Valid()
    modifies f
    ensures f.Valid()
    ensures r == HeaderAt(f.data, old(f.pos)) && (r.Ok? ==> f.pos == r.next)
  {
    var tag := f.ReadU16();
    if !tag.Ok? {
      return StructError;
    }
    var taglen := f.ReadU16();
    if !taglen.Ok? {
      return StructError;
    }
    var tagdata := f.Read(taglen.value);
    r := Ok(Header(tag.value, tagdata), f.pos);
  }

  /** The headers read so far, then one more. */
  lemma HeaderLoopStep(data: seq<byte>, start: nat, pos: nat, limit: nat, headers: seq<Header>, header: Header, next: nat)
    requires start <= |data| && pos < limit && pos <= |data| && HeaderAt(data, pos) == Ok(header, next)
    requires HeaderLoop(data, start, limit) == Cons(headers, HeaderLoop(data, pos, limit))
    ensures next <= |data| && HeaderLoop(data, start, limit) == Cons(headers + [header], HeaderLoop(data, next, limit))
  {
    ConsCons(headers, [header], HeaderLoop(data, next, limit));
  }

  /** `_read_times`. */
  method ReadTimes(f: File) returns (r: Step<Times>)
    requires f.Valid()
    modifies f
    ensures f.Valid()
    ensures r == TimesAt(f.data, old(f.pos)) && (r.Ok? ==> f.pos == r.next)
  {
    var authtime := f.ReadU32();
    if !authtime.Ok? {
      return StructError;
    }
    var starttime := f.ReadU32();
    if !starttime.Ok? {
      return StructError;
    }
    var endtime := f.ReadU32();
    if !endtime.Ok? {
      return StructError;
    }
    var renewTill := f.ReadU32();
    if !renewTill.Ok? {
      return StructError;
    }
    r := Ok(Times(authtime.value, starttime.value, endtime.value, renewTill.value), f.pos);
  }

  /** `_read_segments`. */
  method ReadSegments(f: File, lay: Layout) returns (r: Step<seq<seq<byte>>>)
    requires f.Valid()
    modifies f
    ensures f.Valid()
    ensures r == SegmentsAt(lay, f.data, old(f.pos)) && (r.Ok? ==> f.pos == r.next)
  {
    var numSegs := f.ReadU32();
    if !numSegs.Ok? {
      return StructError;
    }
    r := ReadArrays(f, lay, numSegs.value);
  }

  /** The cache's `_load_entry`, with the object's version and array width
      in `lay`. */
  method LoadEntry(f: File, lay: Layout) returns (r: Step<Credential>)
    requires f.Valid()
    modifies f
    ensures f.Valid()
    ensures r == CredentialAt(lay, f.data, old(f.pos)) && (r.Ok? ==> f.pos == r.next)
  {
    var client := ReadPrincipal(f, lay);
    if !client.Ok? {
      return if client.Eof? then Eof else StructError;
    }
    var server := ReadPrincipal(f, lay);
    if !server.Ok? {
      return if server.Eof? then Eof else StructError;
    }
    r := ReadCredentialAfter(f, lay, client.value, server.value);
  }

  /** The reads of `_load_entry` after the two principals. */
  method ReadCredentialAfter(f: File, lay: Layout, client: Principal, server: Principal) returns (r: Step<Credential>)
    requires f.Valid()
    modifies f
    ensures f.Valid()
    ensures r == CredentialAfter(lay, f.data, client, server, old(f.pos)) && (r.Ok? ==> f.pos == r.next)
  {
    var fixed := ReadFixed(f, lay, client, server);
    if !fixed.Ok? {
      return StructError;
    }
    r := ReadCredentialTail(f, lay, fixed.value);
  }

  /** The reads of `_load_entry` from the key block to the flags. */
  method ReadFixed(f: File, lay: Layout, client: Principal, server: Principal) returns (r: Step<Credential>)
    requires f.Valid()
    modifies f
    ensures f.Valid()
    ensures r == FixedAt(lay, f.data, client, server, old(f.pos)) && (r.Ok? ==> f.pos == r.next)
  {
    var key := ReadKeyblock(f, lay);
    if !key.Ok? {
      return StructError;
    }
    var times := ReadTimes(f);
    if !times.Ok? {
      return StructError;
    }
    var isSkey := f.ReadU8();
    if !isSkey.Ok? {
      return StructError;
    }
    var flags := f.ReadU32LE();
    if !flags.Ok? {
      return StructError;
    }
    r := Ok(Credential(client, server, key.value, times.value, isSkey.value, flags.value, [], [], [], []), f.pos);
  }

  /** The reads of `_load_entry` after the flags. */
  method ReadCredentialTail(f: File, lay: Layout, c: Credential) returns (r: Step<Credential>)
    requires f.Valid()
    modifies f
    ensures f.Valid()
    ensures r == CredentialTail(lay, f.data, c, old(f.pos)) && (r.Ok? ==> f.pos == r.next)
  {
    var addrs := ReadSegments(f, lay);
    if !addrs.Ok? {
      return StructError;
    }
    var authdata := ReadSegments(f, lay);
    if !authdata.Ok? {
      return StructError;
    }
    var ticket := ReadArray(f, lay);
    if !ticket.Ok? {
      return StructError;
    }
    var ticket2 := ReadArray(f, lay);
    if !ticket2.Ok? {
      return StructError;
    }
    r := Ok(c.(addrs := addrs.value, authdata := authdata.value, ticket := ticket.value, ticket2 := ticket2.value),
            f.pos);
  }

  /** One turn of the entry loop, after the credentials `got` so far. */
  lemma CredentialsStep(lay: Layout, data: seq<byte>, pos: nat, got: seq<Credential>, r: Step<Credential>)
    requires pos <= |data| && r == CredentialAt(lay, data, pos)
    ensures var s := CredentialsFrom(lay, data, pos);
      r.Eof? ==> Scan(got + s.items, s.ending) == Scan(got, EndOfFile)
    ensures var s := CredentialsFrom(lay, data, pos);
      r.StructError? ==> Scan(got + s.items, s.ending) == Scan(got, Failed)
    ensures var s := CredentialsFrom(lay, data, pos);
      r.Ok? ==> (r.next <= |data| &&
                 Scan(got + s.items, s.ending) ==
                 Scan((got + [r.value]) + CredentialsFrom(lay, data, r.next).items,
                      CredentialsFrom(lay, data, r.next).ending))
  {
    assert got + [] == got;
    if r.Ok? {
      var rest := CredentialsFrom(lay, data, r.next);
      assert got + ([r.value] + rest.items) == (got + [r.value]) + rest.items;
    }
  }

  /** One turn of the entry loop of `load`: what it reads, and how the
      credentials collected so far go on. `rest` is what the loop collects
      from the position before, `after` from the position after. */
  method LoadNext(f: File, lay: Layout, ghost got: seq<Credential>, ghost rest: Scan<Credential>)
    returns (r: Step<Credential>, ghost after: Scan<Credential>)
    requires f.Valid() && rest == CredentialsFrom(lay, f.data, f.pos)
    modifies f
    ensures f.Valid() && after == CredentialsFrom(lay, f.data, f.pos)
    ensures r.Eof? ==> Scan(got + rest.items, rest.ending) == Scan(got, EndOfFile)
    ensures r.StructError? ==> Scan(got + rest.items, rest.ending) == Scan(got, Failed)
    ensures r.Ok? ==> (old(f.pos) < f.pos &&
                       Scan(got + rest.items, rest.ending) == Scan((got + [r.value]) + after.items, after.ending))
  {
    ghost var pos := f.pos;
    r := LoadEntry(f, lay);
    CredentialsStep(lay, f.data, pos, got, r);
    after := CredentialsFrom(lay, f.data, f.pos);
  }

  // ---------------------------------------------------------------- the object

  /** A credential cache in memory: `CredentialCache(filename)` is `Empty`
      followed by `Load`. `headers` and `defaultPrincipal` are `None` while
      `_load_intro` has not set `self.headers` and `self.default_princ`. */
  class CredentialCache {
    var version: u16
    var arrayWidth: ArrayWidth
    var headers: Option<seq<Header>>
    var defaultPrincipal: Option<Principal>
    var credentials: seq<Credential>

    /** The object `Krb5File.__init__` has built before it calls `load`. */
    constructor Empty()
      ensures version == 0 && arrayWidth == 2 && headers == None && defaultPrincipal == None
      ensures credentials == []
    {
      version := 0;
      arrayWidth := 2;
      headers := None;
      defaultPrincipal := None;
      credentials := [];
    }

    /** `load`: `ok` is false when an exception escaped, from the version,
        from `_load_intro` or from the entry loop. */
    method Load(data: seq<byte>) returns (ok: bool)
      modifies this
      ensures var d := Decode(data, old(arrayWidth));
        match d
        case NoVersion =>
          !ok && version == old(version) && arrayWidth == old(arrayWidth) && headers == old(headers) &&
          defaultPrincipal == old(defaultPrincipal) && credentials == old(credentials)
        case NoIntro(v, w, read, _) =>
          !ok && version == v && arrayWidth == w && headers == (if read.Some? then read else old(headers)) &&
          defaultPrincipal == old(defaultPrincipal) && credentials == old(credentials)
        case Loaded(v, w, hs, principal, items, ending) =>
          version == v && arrayWidth == w && headers == Some(hs) && defaultPrincipal == Some(principal) &&
          credentials == old(credentials) + items && (ok <==> ending == EndOfFile)
    {
      var f := new File.Open(data);
      var v := f.ReadU16();
      if !v.Ok? {
        return false;
      }
      version := v.value;
      if version == 0x0504 {
        arrayWidth := 4;
      }
      ok := LoadIntro(f);
      if !ok {
        return false;
      }
      ok := LoadEntries(f);
    }

    /** `_load_intro`: the headers, then the default principal; `ok` is
        false when either raised. */
    method LoadIntro(f: File) returns (ok: bool)
      requires f.Valid()
      modifies this, f
      ensures f.Valid() && version == old(version) && arrayWidth == old(arrayWidth)
      ensures credentials == old(credentials)
      ensures var lay := Layout(version, arrayWidth);
        match HeadersAt(f.data, old(f.pos))
        case Ok(hs, q) =>
          headers == Some(hs) &&
          (match PrincipalAt(lay, f.data, q)
           case Ok(principal, start) => ok && defaultPrincipal == Some(principal) && f.pos == start
           case _ => !ok && defaultPrincipal == old(defaultPrincipal))
        case _ => !ok && headers == old(headers) && defaultPrincipal == old(defaultPrincipal)
    {
      var hs := ReadHeaders(f);
      if !hs.Ok? {
        return false;
      }
      headers := Some(hs.value);
      var principal := ReadPrincipal(f, Layout(version, arrayWidth));
      if !principal.Ok? {
        return false;
      }
      defaultPrincipal := Some(principal.value);
      ok := true;
    }

    /** The `while 1` loop of `load`: credentials are appended until
        `EOFError`; `ok` is false when a `struct.error` escaped. */
    method LoadEntries(f: File) returns (ok: bool)
      requires f.Valid()
      modifies this, f
      ensures f.Valid() && version == old(version) && arrayWidth == old(arrayWidth)
      ensures headers == old(headers) && defaultPrincipal == old(defaultPrincipal)
      ensures var s := CredentialsFrom(Layout(version, arrayWidth), f.data, old(f.pos));
        credentials == old(credentials) + s.items && (ok <==> s.ending == EndOfFile)
    {
      var lay := Layout(version, arrayWidth);
      ghost var all := CredentialsFrom(lay, f.data, f.pos);
      ghost var rest := all;
      ghost var before := credentials;
      while true
        invariant f.Valid() && lay == Layout(version, arrayWidth)
        invariant version == old(version) && arrayWidth == old(arrayWidth)
        invariant headers == old(headers) && defaultPrincipal == old(defaultPrincipal)
        invariant rest == CredentialsFrom(lay, f.data, f.pos)
        invariant Scan(before + all.items, all.ending) == Scan(credentials + rest.items, rest.ending)
        decreases |f.data| - f.pos
      {
        var c;
        c, rest := LoadNext(f, lay, credentials, rest);
        if c.Eof? {
          return true;
        }
        if c.StructError? {
          return false;
        }
        credentials := credentials + [c.value];
      }
    }

    /** `is_tgt_expired(secs)`, with `now` the clock reading it takes. */
    method IsTgtExpired(now: int, secs: int) returns (r: Option<bool>)
      ensures r == TgtExpired(credentials, now, secs)
    {
      for i := 0 to |credentials|
        invariant TgtExpired(credentials, now, secs) == TgtExpired(credentials[i..], now, secs)
      {
        assert credentials[i..][1..] == credentials[i + 1..];
        var service := Split(credentials[i].server.value, Slash)[0];
        if service == Krbtgt {
          return Some(credentials[i].times.endtime <= now + secs);
        }
      }
      return None;
    }
  }
}
