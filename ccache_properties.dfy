/** Properties of the credential cache model: which credential decides
    `is_tgt_expired`, and that the readers of `_load_intro` and
    `_load_entry` invert the on-disk layout of each part. */
module CacheProperties {
  import opened Bytes
  import opened Wrappers
  import opened Stream
  import opened Names
  import opened Krb5File
  import opened CredentialCache

  // ---------------------------------------------------------------- the expiry check

  /** The first ticket-granting ticket in the cache, and no later one,
      decides the answer. */
  lemma {:induction false} FirstTgtDecides(credentials: seq<Credential>, now: int, secs: int, i: nat)
    requires i < |credentials| && IsTgt(credentials[i])
    requires forall j :: 0 <= j < i ==> !IsTgt(credentials[j])
    ensures TgtExpired(credentials, now, secs) == Some(credentials[i].times.endtime <= now + secs)
  {
    if i > 0 {
      assert !IsTgt(credentials[0]);
      var rest := credentials[1..];
      forall j | 0 <= j < i - 1
        ensures !IsTgt(rest[j])
      {
        assert rest[j] == credentials[j + 1];
      }
      FirstTgtDecides(rest, now, secs, i - 1);
    }
  }

  /** There is no answer exactly when no credential is a ticket-granting
      ticket. */
  lemma {:induction false} NoTgtNoAnswer(credentials: seq<Credential>, now: int, secs: int)
    ensures TgtExpired(credentials, now, secs).None? <==>
      forall i :: 0 <= i < |credentials| ==> !IsTgt(credentials[i])
  {
    if credentials != [] && !IsTgt(credentials[0]) {
      var rest := credentials[1..];
      NoTgtNoAnswer(rest, now, secs);
      assert (forall i :: 0 <= i < |rest| ==> !IsTgt(rest[i])) <==>
             (forall i :: 0 <= i < |credentials| ==> !IsTgt(credentials[i])) by {
        assert forall i :: 0 <= i < |rest| ==> rest[i] == credentials[i + 1];
        assert forall i :: 0 < i < |credentials| ==> credentials[i] == rest[i - 1];
      }
    }
  }

  /** A ticket that has expired within `secs` seconds has also expired
      within any longer margin. */
  lemma {:induction false} ExpiredWithinLonger(credentials: seq<Credential>, now: int, secs: int, longer: int)
    requires secs <= longer
    ensures TgtExpired(credentials, now, secs).Some? == TgtExpired(credentials, now, longer).Some?
    ensures TgtExpired(credentials, now, secs) == Some(true) ==> TgtExpired(credentials, now, longer) == Some(true)
  {
    if credentials != [] && !IsTgt(credentials[0]) {
      ExpiredWithinLonger(credentials[1..], now, secs, longer);
    }
  }

  // ---------------------------------------------------------------- headers

  predicate HeadersFit(headers: seq<Header>)
  {
    forall i :: 0 <= i < |headers| ==> |headers[i].data| < 0x1_0000
  }

  /** A header as the loop of `_read_headers` expects it: the tag, the
      length of its data, then the data. */
  function HeaderBytes(h: Header): (r: seq<byte>)
    requires |h.data| < 0x1_0000
    ensures |r| == 4 + |h.data|
  {
    FieldRanges();
    PackUInt(h.tag, 2) + (PackUInt(|h.data|, 2) + h.data)
  }

  function HeadersBytes(headers: seq<Header>): seq<byte>
    requires HeadersFit(headers)
  {
    if headers == [] then [] else HeaderBytes(headers[0]) + HeadersBytes(headers[1..])
  }

  /** The header block: its length as a u16, then the headers. */
  function HeaderBlockBytes(headers: seq<Header>): seq<byte>
    requires HeadersFit(headers) && |HeadersBytes(headers)| < 0x1_0000
  {
    FieldRanges();
    PackUInt(|HeadersBytes(headers)|, 2) + HeadersBytes(headers)
  }

  /** One header reads back. */
  lemma HeaderRoundTrip(data: seq<byte>, pos: nat, h: Header)
    requires |h.data| < 0x1_0000 && Holds(data, pos, HeaderBytes(h))
    ensures pos <= |data| && HeaderAt(data, pos) == Ok(h, pos + |HeaderBytes(h)|)
  {
    FieldRanges();
    HoldsSplit(data, pos, PackUInt(h.tag, 2), PackUInt(|h.data|, 2) + h.data);
    UIntAtPacked(data, pos, h.tag, 2);
    HoldsSplit(data, pos + 2, PackUInt(|h.data|, 2), h.data);
    UIntAtPacked(data, pos + 2, |h.data|, 2);
    HoldsWindow(data, pos + 4, h.data);
  }

  /** The headers read back when the loop's limit is where they end: each
      header takes at least four bytes, so the loop stops right after the
      last one. */
  lemma {:induction false} HeaderLoopRoundTrip(data: seq<byte>, pos: nat, headers: seq<Header>, limit: nat)
    requires HeadersFit(headers) && Holds(data, pos, HeadersBytes(headers))
    requires limit == pos + |HeadersBytes(headers)|
    ensures pos <= |data| && HeaderLoop(data, pos, limit) == Ok(headers, limit)
    decreases headers
  {
    if headers != [] {
      var next := FirstHeaderRead(data, pos, headers);
      HeaderLoopRoundTrip(data, next, headers[1..], limit);
      assert [headers[0]] + headers[1..] == headers;
    }
  }

  /** The first of several headers reads back, and the others follow it. */
  lemma FirstHeaderRead(data: seq<byte>, pos: nat, headers: seq<Header>) returns (next: nat)
    requires headers != [] && HeadersFit(headers) && Holds(data, pos, HeadersBytes(headers))
    ensures pos < next <= |data| && HeaderAt(data, pos) == Ok(headers[0], next)
    ensures HeadersFit(headers[1..]) && Holds(data, next, HeadersBytes(headers[1..]))
    ensures next + |HeadersBytes(headers[1..])| == pos + |HeadersBytes(headers)|
  {
    assert |headers[0].data| < 0x1_0000;
    HoldsSplit(data, pos, HeaderBytes(headers[0]), HeadersBytes(headers[1..]));
    HeaderRoundTrip(data, pos, headers[0]);
    next := pos + |HeaderBytes(headers[0])|;
  }

  /** `_read_headers` inverts the header block. */
  lemma HeadersRoundTrip(data: seq<byte>, pos: nat, headers: seq<Header>)
    requires HeadersFit(headers) && |HeadersBytes(headers)| < 0x1_0000
    requires Holds(data, pos, HeaderBlockBytes(headers))
    ensures pos <= |data| && HeadersAt(data, pos) == Ok(headers, pos + |HeaderBlockBytes(headers)|)
  {
    FieldRanges();
    var block := HeadersBytes(headers);
    CountThen(data, pos, |block|, 2, block);
    HeadersAfterLength(data, pos, headers, pos + 2 + |block|);
  }

  /** A length that reads back, followed by headers that read back up to
      that length, is the header block. */
  lemma HeadersAfterLength(data: seq<byte>, pos: nat, headers: seq<Header>, end: nat)
    requires HeadersFit(headers) && |HeadersBytes(headers)| < 0x1_0000
    requires pos + 2 <= |data| && UIntAt(data, pos, 2) == Ok(|HeadersBytes(headers)|, pos + 2)
    requires Holds(data, pos + 2, HeadersBytes(headers)) && end == pos + 2 + |HeadersBytes(headers)|
    ensures pos <= |data| && HeadersAt(data, pos) == Ok(headers, end)
  {
    HeaderLoopRoundTrip(data, pos + 2, headers, end);
  }

  // ---------------------------------------------------------------- times, flags, segments

  /** The four times, each a u32. */
  function TimesBytes(t: Times): (r: seq<byte>)
    ensures |r| == 16
  {
    FieldRanges();
    PackUInt(t.authtime, 4) + PackUInt(t.starttime, 4) + PackUInt(t.endtime, 4) + PackUInt(t.renewTill, 4)
  }

  /** `_read_times` inverts the four times. */
  lemma TimesRoundTrip(data: seq<byte>, pos: nat, t: Times)
    requires Holds(data, pos, TimesBytes(t))
    ensures pos <= |data| && TimesAt(data, pos) == Ok(t, pos + 16)
  {
    FieldRanges();
    var a := PackUInt(t.authtime, 4);
    var s := PackUInt(t.starttime, 4);
    var e := PackUInt(t.endtime, 4);
    var r := PackUInt(t.renewTill, 4);
    HoldsSplit(data, pos, a + s + e, r);
    HoldsSplit3(data, pos, a, s, e);
    UIntAtPacked(data, pos, t.authtime, 4);
    UIntAtPacked(data, pos + 4, t.starttime, 4);
    UIntAtPacked(data, pos + 8, t.endtime, 4);
    UIntAtPacked(data, pos + 12, t.renewTill, 4);
  }

  /** `struct.unpack("<L")` reads back a u32 written least significant byte
      first. */
  lemma FlagsRoundTrip(data: seq<byte>, pos: nat, flags: u32)
    requires Holds(data, pos, Reversed(PackUInt(flags, 4)))
    ensures pos <= |data| && U32LEAt(data, pos) == Ok(flags, pos + 4)
  {
    FieldRanges();
    ReversedTwice(PackUInt(flags, 4));
    assert data[pos..pos + 4] == Reversed(PackUInt(flags, 4));
  }

  /** A list of segments: a u32 count, then the arrays. */
  function SegmentsBytes(width: ArrayWidth, segments: seq<seq<byte>>): seq<byte>
    requires |segments| < 0x1_0000_0000 && AllFit(segments, width)
  {
    FieldRanges();
    PackUInt(|segments|, 4) + ArraysBytes(width, segments)
  }

  /** `_read_segments` inverts a list of segments; its count is always a u32
      whatever the array width. */
  lemma SegmentsRoundTrip(lay: Layout, data: seq<byte>, pos: nat, segments: seq<seq<byte>>)
    requires |segments| < 0x1_0000_0000 && AllFit(segments, lay.width)
    requires Holds(data, pos, SegmentsBytes(lay.width, segments))
    ensures pos <= |data| &&
      SegmentsAt(lay, data, pos) == Ok(segments, pos + |SegmentsBytes(lay.width, segments)|)
  {
    FieldRanges();
    CountThen(data, pos, |segments|, 4, ArraysBytes(lay.width, segments));
    ArraysRoundTrip(lay, data, pos + 4, segments);
  }

  // ---------------------------------------------------------------- credentials

  /** A principal as written: its name type, components and realm. */
  datatype Name = Name(nameType: u32, components: seq<seq<byte>>, realm: seq<byte>)

  predicate NameFits(width: ArrayWidth, n: Name)
  {
    Fits(|n.components|, width) && Fits(|n.realm|, width) && AllFit(n.components, width)
  }

  function NameBytes(lay: Layout, n: Name): seq<byte>
    requires NameFits(lay.width, n)
  {
    PrincipalBytes(lay, n.nameType, n.components, n.realm)
  }

  /** The principal `_read_principal` builds from a name. */
  function NameRead(lay: Layout, n: Name): Principal
  {
    Principal(if lay.version == 0x0502 || lay.version == 0x0504 then Some(n.nameType) else None,
              PrincipalText(n.components, n.realm))
  }

  /** A credential as written, field by field in the order `_load_entry`
      reads them. */
  datatype Record = Record(
    client: Name, server: Name, keyType: u16, etype: seq<byte>, key: seq<byte>, times: Times,
    isSkey: u8, ticketFlags: u32, addrs: seq<seq<byte>>, authdata: seq<seq<byte>>,
    ticket: seq<byte>, ticket2: seq<byte>)

  predicate RecordFits(width: ArrayWidth, r: Record)
  {
    NameFits(width, r.client) && NameFits(width, r.server) && |r.etype| == 2 && Fits(|r.key|, 2) &&
    |r.addrs| < 0x1_0000_0000 && AllFit(r.addrs, width) &&
    |r.authdata| < 0x1_0000_0000 && AllFit(r.authdata, width) &&
    Fits(|r.ticket|, width) && Fits(|r.ticket2|, width)
  }

  /** The key block, the times, `is_skey` and the little-endian flags. */
  function FixedBytes(version: u16, r: Record): seq<byte>
    requires |r.etype| == 2 && Fits(|r.key|, 2)
  {
    FieldRanges();
    KeyBlockBytes(version, r.keyType, r.etype, r.key) +
      (TimesBytes(r.times) + ([r.isSkey] + Reversed(PackUInt(r.ticketFlags, 4))))
  }

  /** The two lists of segments and the two tickets. */
  function DataBytes(width: ArrayWidth, r: Record): seq<byte>
    requires RecordFits(width, r)
  {
    SegmentsBytes(width, r.addrs) +
      (SegmentsBytes(width, r.authdata) + (ArrayBytes(width, r.ticket) + ArrayBytes(width, r.ticket2)))
  }

  /** What follows the two principals. */
  function AfterBytes(lay: Layout, r: Record): seq<byte>
    requires RecordFits(lay.width, r)
  {
    FixedBytes(lay.version, r) + DataBytes(lay.width, r)
  }

  /** A credential on disk: the client, the server, then the other fields. */
  function RecordBytes(lay: Layout, r: Record): seq<byte>
    requires RecordFits(lay.width, r)
  {
    NameBytes(lay, r.client) + (NameBytes(lay, r.server) + AfterBytes(lay, r))
  }

  /** The credential `_load_entry` builds from a record. */
  function RecordRead(lay: Layout, r: Record): Credential
  {
    Credential(NameRead(lay, r.client), NameRead(lay, r.server),
               KeyBlock(r.keyType, if lay.version > 0x0502 then Some(r.etype) else None, r.key),
               r.times, r.isSkey, r.ticketFlags, r.addrs, r.authdata, r.ticket, r.ticket2)
  }

  /** The cache's `_load_entry` inverts the credential layout. */
  lemma CredentialRoundTrip(lay: Layout, data: seq<byte>, pos: nat, r: Record)
    requires RecordFits(lay.width, r) && Holds(data, pos, RecordBytes(lay, r))
    ensures pos <= |data| && CredentialAt(lay, data, pos) == Ok(RecordRead(lay, r), pos + |RecordBytes(lay, r)|)
  {
    var q := PrincipalsRead(lay, data, pos, r);
    AfterRoundTrip(lay, data, q, r);
  }

  /** The client and the server read back; what the entry then reads is
      what follows them. */
  lemma PrincipalsRead(lay: Layout, data: seq<byte>, pos: nat, r: Record) returns (q: nat)
    requires RecordFits(lay.width, r) && Holds(data, pos, RecordBytes(lay, r))
    ensures pos <= q <= |data| && Holds(data, q, AfterBytes(lay, r))
    ensures q + |AfterBytes(lay, r)| == pos + |RecordBytes(lay, r)|
    ensures CredentialAt(lay, data, pos) == CredentialAfter(lay, data, NameRead(lay, r.client), NameRead(lay, r.server), q)
  {
    var p := PrincipalThen(lay, data, pos, r.client, NameBytes(lay, r.server) + AfterBytes(lay, r));
    q := PrincipalThen(lay, data, p, r.server, AfterBytes(lay, r));
    CredentialFromPrincipals(lay, data, pos, NameRead(lay, r.client), p, NameRead(lay, r.server), q);
  }

  /** Once both principals have been read, the entry reads what follows
      them. */
  lemma CredentialFromPrincipals(lay: Layout, data: seq<byte>, pos: nat, client: Principal, p: nat,
                                 server: Principal, q: nat)
    requires pos <= |data| && PrincipalAt(lay, data, pos) == Ok(client, p)
    requires p <= |data| && PrincipalAt(lay, data, p) == Ok(server, q)
    ensures q <= |data| && CredentialAt(lay, data, pos) == CredentialAfter(lay, data, client, server, q)
  {
  }

  /** A principal reads back, and what was written after it follows. */
  lemma PrincipalThen(lay: Layout, data: seq<byte>, pos: nat, n: Name, rest: seq<byte>) returns (q: nat)
    requires NameFits(lay.width, n) && Holds(data, pos, NameBytes(lay, n) + rest)
    ensures pos <= |data| && PrincipalAt(lay, data, pos) == Ok(NameRead(lay, n), q)
    ensures Holds(data, q, rest) && q + |rest| == pos + |NameBytes(lay, n) + rest|
  {
    HoldsSplit(data, pos, NameBytes(lay, n), rest);
    PrincipalRoundTrip(lay, data, pos, n.nameType, n.components, n.realm);
    q := pos + |NameBytes(lay, n)|;
  }

  /** The fields after the two principals read back. */
  lemma AfterRoundTrip(lay: Layout, data: seq<byte>, pos: nat, r: Record)
    requires RecordFits(lay.width, r) && Holds(data, pos, AfterBytes(lay, r))
    ensures pos <= |data| &&
      CredentialAfter(lay, data, NameRead(lay, r.client), NameRead(lay, r.server), pos) ==
        Ok(RecordRead(lay, r), pos + |AfterBytes(lay, r)|)
  {
    var partial := Credential(NameRead(lay, r.client), NameRead(lay, r.server),
                              KeyBlock(r.keyType, if lay.version > 0x0502 then Some(r.etype) else None, r.key),
                              r.times, r.isSkey, r.ticketFlags, [], [], [], []);
    AfterInto(lay, data, pos, r, partial);
  }

  /** The fields after the two principals read back into `partial`, whose
      fixed fields are the record's. */
  lemma AfterInto(lay: Layout, data: seq<byte>, pos: nat, r: Record, partial: Credential)
    requires RecordFits(lay.width, r) && Holds(data, pos, AfterBytes(lay, r))
    requires partial.key == KeyBlock(r.keyType, if lay.version > 0x0502 then Some(r.etype) else None, r.key)
    requires partial.times == r.times && partial.isSkey == r.isSkey && partial.ticketFlags == r.ticketFlags
    requires partial.addrs == [] && partial.authdata == [] && partial.ticket == [] && partial.ticket2 == []
    ensures pos <= |data| &&
      CredentialAfter(lay, data, partial.client, partial.server, pos) ==
        Ok(partial.(addrs := r.addrs, authdata := r.authdata, ticket := r.ticket, ticket2 := r.ticket2),
           pos + |AfterBytes(lay, r)|)
  {
    var p := FixedThen(lay, data, pos, r, partial);
    TailRoundTrip(lay, data, p, r, partial);
  }

  /** The key block, the times, `is_skey` and the flags read back; what the
      entry then reads is what follows them. */
  lemma FixedThen(lay: Layout, data: seq<byte>, pos: nat, r: Record, partial: Credential) returns (p: nat)
    requires RecordFits(lay.width, r) && Holds(data, pos, AfterBytes(lay, r))
    requires partial.key == KeyBlock(r.keyType, if lay.version > 0x0502 then Some(r.etype) else None, r.key)
    requires partial.times == r.times && partial.isSkey == r.isSkey && partial.ticketFlags == r.ticketFlags
    requires partial.addrs == [] && partial.authdata == [] && partial.ticket == [] && partial.ticket2 == []
    ensures pos <= p <= |data| && Holds(data, p, DataBytes(lay.width, r))
    ensures p + |DataBytes(lay.width, r)| == pos + |AfterBytes(lay, r)|
    ensures CredentialAfter(lay, data, partial.client, partial.server, pos) == CredentialTail(lay, data, partial, p)
  {
    var p1, p2, p3;
    p1, p2, p3, p := FixedRead(lay, data, pos, r, DataBytes(lay.width, r));
    CredentialFromFixed(lay, data, pos, partial, p1, p2, p3, p);
  }

  /** Once the fixed fields have been read, the entry reads the tail. */
  lemma CredentialFromFixed(lay: Layout, data: seq<byte>, pos: nat, partial: Credential,
                            p1: nat, p2: nat, p3: nat, p4: nat)
    requires pos <= |data| && KeyBlockAt(lay, data, pos) == Ok(partial.key, p1)
    requires p1 <= |data| && TimesAt(data, p1) == Ok(partial.times, p2)
    requires p2 <= |data| && U8At(data, p2) == Ok(partial.isSkey, p3)
    requires p3 <= |data| && U32LEAt(data, p3) == Ok(partial.ticketFlags, p4)
    requires partial.addrs == [] && partial.authdata == [] && partial.ticket == [] && partial.ticket2 == []
    ensures p4 <= |data| && CredentialAfter(lay, data, partial.client, partial.server, pos) ==
      CredentialTail(lay, data, partial, p4)
  {
    assert FixedAt(lay, data, partial.client, partial.server, pos) == Ok(partial, p4);
  }

  /** The segments and the tickets read back and complete the credential. */
  lemma TailRoundTrip(lay: Layout, data: seq<byte>, pos: nat, r: Record, partial: Credential)
    requires RecordFits(lay.width, r) && Holds(data, pos, DataBytes(lay.width, r))
    ensures pos <= |data| &&
      CredentialTail(lay, data, partial, pos) ==
        Ok(partial.(addrs := r.addrs, authdata := r.authdata, ticket := r.ticket, ticket2 := r.ticket2),
           pos + |DataBytes(lay.width, r)|)
  {
    var d1, d2, d3 := DataRead(lay, data, pos, r);
    TailFromParts(lay, data, pos, partial, r.addrs, d1, r.authdata, d2, r.ticket, d3, r.ticket2,
                  pos + |DataBytes(lay.width, r)|);
  }

  /** The tail, once each of its fields has been read. */
  lemma TailFromParts(lay: Layout, data: seq<byte>, pos: nat, partial: Credential,
                      addrs: seq<seq<byte>>, d1: nat, authdata: seq<seq<byte>>, d2: nat,
                      ticket: seq<byte>, d3: nat, ticket2: seq<byte>, end: nat)
    requires pos <= |data| && SegmentsAt(lay, data, pos) == Ok(addrs, d1)
    requires d1 <= |data| && SegmentsAt(lay, data, d1) == Ok(authdata, d2)
    requires d2 <= |data| && ArrayAt(lay, data, d2) == Ok(ticket, d3)
    requires d3 <= |data| && ArrayAt(lay, data, d3) == Ok(ticket2, end)
    ensures CredentialTail(lay, data, partial, pos) ==
      Ok(partial.(addrs := addrs, authdata := authdata, ticket := ticket, ticket2 := ticket2), end)
  {
  }

  /** The key block, the times, `is_skey` and the flags read back, and the
      rest follows them. */
  lemma FixedRead(lay: Layout, data: seq<byte>, pos: nat, r: Record, rest: seq<byte>)
      returns (p1: nat, p2: nat, p3: nat, p4: nat)
    requires |r.etype| == 2 && Fits(|r.key|, 2) && Holds(data, pos, FixedBytes(lay.version, r) + rest)
    ensures pos <= |data| &&
      KeyBlockAt(lay, data, pos) == Ok(KeyBlock(r.keyType, if lay.version > 0x0502 then Some(r.etype) else None, r.key), p1)
    ensures p1 <= |data| && TimesAt(data, p1) == Ok(r.times, p2)
    ensures p2 <= |data| && U8At(data, p2) == Ok(r.isSkey, p3)
    ensures p3 <= |data| && U32LEAt(data, p3) == Ok(r.ticketFlags, p4)
    ensures Holds(data, p4, rest) && p4 + |rest| == pos + |FixedBytes(lay.version, r) + rest|
  {
    FieldRanges();
    var k := KeyBlockBytes(lay.version, r.keyType, r.etype, r.key);
    var f := Reversed(PackUInt(r.ticketFlags, 4));
    HoldsSplit(data, pos, FixedBytes(lay.version, r), rest);
    p1 := KeyBlockThen(lay, data, pos, r.keyType, r.etype, r.key, TimesBytes(r.times) + ([r.isSkey] + f));
    p2 := TimesThen(data, p1, r.times, [r.isSkey] + f);
    p3 := SkeyThenFlags(data, p2, r.isSkey, r.ticketFlags);
    p4 := p3 + 4;
  }

  /** A key block reads back, and what was written after it follows. */
  lemma KeyBlockThen(lay: Layout, data: seq<byte>, pos: nat, keyType: u16, etype: seq<byte>, key: seq<byte>,
                     rest: seq<byte>) returns (q: nat)
    requires |etype| == 2 && Fits(|key|, 2) && Holds(data, pos, KeyBlockBytes(lay.version, keyType, etype, key) + rest)
    ensures pos <= |data| &&
      KeyBlockAt(lay, data, pos) == Ok(KeyBlock(keyType, if lay.version > 0x0502 then Some(etype) else None, key), q)
    ensures Holds(data, q, rest) && q + |rest| == pos + |KeyBlockBytes(lay.version, keyType, etype, key) + rest|
  {
    HoldsSplit(data, pos, KeyBlockBytes(lay.version, keyType, etype, key), rest);
    KeyBlockRoundTrip(lay, data, pos, keyType, etype, key);
    q := pos + |KeyBlockBytes(lay.version, keyType, etype, key)|;
  }

  /** The four times read back, and what was written after them follows. */
  lemma TimesThen(data: seq<byte>, pos: nat, t: Times, rest: seq<byte>) returns (q: nat)
    requires Holds(data, pos, TimesBytes(t) + rest)
    ensures pos <= |data| && TimesAt(data, pos) == Ok(t, q)
    ensures Holds(data, q, rest) && q == pos + 16
  {
    HoldsSplit(data, pos, TimesBytes(t), rest);
    TimesRoundTrip(data, pos, t);
    q := pos + 16;
  }

  /** `is_skey` and the little-endian flags read back. */
  lemma SkeyThenFlags(data: seq<byte>, pos: nat, isSkey: u8, flags: u32) returns (q: nat)
    requires Holds(data, pos, [isSkey] + Reversed(PackUInt(flags, 4)))
    ensures pos <= |data| && U8At(data, pos) == Ok(isSkey, q)
    ensures q <= |data| && U32LEAt(data, q) == Ok(flags, q + 4) && q == pos + 1
  {
    FieldRanges();
    HoldsSplit(data, pos, [isSkey], Reversed(PackUInt(flags, 4)));
    U8AtPacked(data, pos, isSkey);
    q := pos + 1;
    FlagsRoundTrip(data, q, flags);
  }

  /** The segments and the tickets read back. */
  lemma DataRead(lay: Layout, data: seq<byte>, pos: nat, r: Record) returns (d1: nat, d2: nat, d3: nat)
    requires RecordFits(lay.width, r) && Holds(data, pos, DataBytes(lay.width, r))
    ensures pos <= |data| && SegmentsAt(lay, data, pos) == Ok(r.addrs, d1)
    ensures d1 <= |data| && SegmentsAt(lay, data, d1) == Ok(r.authdata, d2)
    ensures d2 <= |data| && ArrayAt(lay, data, d2) == Ok(r.ticket, d3)
    ensures d3 <= |data| && ArrayAt(lay, data, d3) == Ok(r.ticket2, pos + |DataBytes(lay.width, r)|)
  {
    var t := ArrayBytes(lay.width, r.ticket);
    var t2 := ArrayBytes(lay.width, r.ticket2);
    d1 := SegmentsThen(lay, data, pos, r.addrs, SegmentsBytes(lay.width, r.authdata) + (t + t2));
    d2 := SegmentsThen(lay, data, d1, r.authdata, t + t2);
    d3 := TicketsRead(lay, data, d2, r.ticket, r.ticket2);
  }

  /** The two tickets read back. */
  lemma TicketsRead(lay: Layout, data: seq<byte>, pos: nat, ticket: seq<byte>, ticket2: seq<byte>) returns (q: nat)
    requires Fits(|ticket|, lay.width) && Fits(|ticket2|, lay.width)
    requires Holds(data, pos, ArrayBytes(lay.width, ticket) + ArrayBytes(lay.width, ticket2))
    ensures pos <= |data| && ArrayAt(lay, data, pos) == Ok(ticket, q)
    ensures q <= |data| && ArrayAt(lay, data, q) ==
      Ok(ticket2, pos + |ArrayBytes(lay.width, ticket) + ArrayBytes(lay.width, ticket2)|)
  {
    HoldsSplit(data, pos, ArrayBytes(lay.width, ticket), ArrayBytes(lay.width, ticket2));
    ArrayRoundTrip(lay, data, pos, ticket);
    q := pos + |ArrayBytes(lay.width, ticket)|;
    ArrayRoundTrip(lay, data, q, ticket2);
  }

  /** A list of segments reads back, and what was written after it follows. */
  lemma SegmentsThen(lay: Layout, data: seq<byte>, pos: nat, segments: seq<seq<byte>>, rest: seq<byte>)
      returns (q: nat)
    requires |segments| < 0x1_0000_0000 && AllFit(segments, lay.width)
    requires Holds(data, pos, SegmentsBytes(lay.width, segments) + rest)
    ensures pos <= |data| && SegmentsAt(lay, data, pos) == Ok(segments, q)
    ensures Holds(data, q, rest) && q + |rest| == pos + |SegmentsBytes(lay.width, segments) + rest|
  {
    HoldsSplit(data, pos, SegmentsBytes(lay.width, segments), rest);
    SegmentsRoundTrip(lay, data, pos, segments);
    q := pos + |SegmentsBytes(lay.width, segments)|;
  }

  // ---------------------------------------------------------------- the whole cache

  predicate RecordsFit(width: ArrayWidth, records: seq<Record>)
  {
    forall i :: 0 <= i < |records| ==> RecordFits(width, records[i])
  }

  /** Each credential on disk, in order. */
  function RecordChunks(lay: Layout, records: seq<Record>): (r: seq<seq<byte>>)
    requires RecordsFit(lay.width, records)
    ensures |r| == |records|
  {
    if records == [] then [] else [RecordBytes(lay, records[0])] + RecordChunks(lay, records[1..])
  }

  function RecordsRead(lay: Layout, records: seq<Record>): (r: seq<Credential>)
    ensures |r| == |records|
  {
    if records == [] then [] else [RecordRead(lay, records[0])] + RecordsRead(lay, records[1..])
  }

  /** A whole cache: the version, the header block, the default principal,
      then the credentials. `width` is the array width of the object that
      loads it, which the version may change. */
  function CacheBytes(width: ArrayWidth, version: u16, headers: seq<Header>, default: Name, records: seq<Record>)
    : seq<byte>
    requires HeadersFit(headers) && |HeadersBytes(headers)| < 0x1_0000
    requires NameFits(WidthAfter(version, width), default) && RecordsFit(WidthAfter(version, width), records)
  {
    FieldRanges();
    var lay := Layout(version, WidthAfter(version, width));
    PackUInt(version, 2) + (HeaderBlockBytes(headers) + (NameBytes(lay, default) + Concat(RecordChunks(lay, records))))
  }

  /** `load` of a whole cache gives back its version, headers, default
      principal and credentials, and the entry loop ends at the end of the
      file. */
  lemma CacheRoundTrip(width: ArrayWidth, version: u16, headers: seq<Header>, default: Name, records: seq<Record>)
    requires HeadersFit(headers) && |HeadersBytes(headers)| < 0x1_0000
    requires NameFits(WidthAfter(version, width), default) && RecordsFit(WidthAfter(version, width), records)
    ensures var lay := Layout(version, WidthAfter(version, width));
      Decode(CacheBytes(width, version, headers, default, records), width) ==
        Loaded(version, lay.width, headers, NameRead(lay, default), RecordsRead(lay, records), EndOfFile)
  {
    var data := CacheBytes(width, version, headers, default, records);
    var lay := Layout(version, WidthAfter(version, width));
    var q, start := IntroRead(width, version, headers, default, records);
    RecordsRoundTrip(lay, data, start, records);
    DecodeFromParts(data, width, version, headers, q, NameRead(lay, default), start);
  }

  /** The version, the header block and the default principal read back,
      and the credentials follow them to the end of the file. */
  lemma IntroRead(width: ArrayWidth, version: u16, headers: seq<Header>, default: Name, records: seq<Record>)
      returns (q: nat, start: nat)
    requires HeadersFit(headers) && |HeadersBytes(headers)| < 0x1_0000
    requires NameFits(WidthAfter(version, width), default) && RecordsFit(WidthAfter(version, width), records)
    ensures var data := CacheBytes(width, version, headers, default, records);
      var lay := Layout(version, WidthAfter(version, width));
      2 <= |data| && U16At(data, 0) == Ok(version, 2) && HeadersAt(data, 2) == Ok(headers, q) &&
      q <= |data| && PrincipalAt(lay, data, q) == Ok(NameRead(lay, default), start) &&
      Holds(data, start, Concat(RecordChunks(lay, records))) &&
      start + |Concat(RecordChunks(lay, records))| == |data|
  {
    FieldRanges();
    var data := CacheBytes(width, version, headers, default, records);
    var lay := Layout(version, WidthAfter(version, width));
    var rest := NameBytes(lay, default) + Concat(RecordChunks(lay, records));
    assert Holds(data, 0, data);
    CountThen(data, 0, version, 2, HeaderBlockBytes(headers) + rest);
    HoldsSplit(data, 2, HeaderBlockBytes(headers), rest);
    HeadersRoundTrip(data, 2, headers);
    q := 2 + |HeaderBlockBytes(headers)|;
    start := PrincipalThen(lay, data, q, default, Concat(RecordChunks(lay, records)));
  }

  /** `load` once the version, the headers and the default principal have
      been read. */
  lemma DecodeFromParts(data: seq<byte>, width: ArrayWidth, version: u16, headers: seq<Header>, q: nat,
                        principal: Principal, start: nat)
    requires 2 <= |data| && U16At(data, 0) == Ok(version, 2) && HeadersAt(data, 2) == Ok(headers, q)
    requires q <= |data| && PrincipalAt(Layout(version, WidthAfter(version, width)), data, q) == Ok(principal, start)
    ensures var s := CredentialsFrom(Layout(version, WidthAfter(version, width)), data, start);
      Decode(data, width) == Loaded(version, WidthAfter(version, width), headers, principal, s.items, s.ending)
  {
  }

  /** The entry loop reads every credential back and stops cleanly at the
      end of the file. */
  lemma {:induction false} RecordsRoundTrip(lay: Layout, data: seq<byte>, pos: nat, records: seq<Record>)
    requires RecordsFit(lay.width, records)
    requires Holds(data, pos, Concat(RecordChunks(lay, records)))
    requires pos + |Concat(RecordChunks(lay, records))| == |data|
    ensures CredentialsFrom(lay, data, pos) == Scan(RecordsRead(lay, records), EndOfFile)
    decreases records
  {
    if records == [] {
      assert PrincipalAt(lay, data, pos).Eof?;
    } else {
      var next := FirstChunk(data, pos, RecordChunks(lay, records));
      ChunksRest(lay, records);
      CredentialThenCredentials(lay, data, pos, records[0], RecordChunks(lay, records)[0], next);
      RecordsRoundTrip(lay, data, next, records[1..]);
    }
  }

  /** The first credential on disk, and the others. */
  lemma ChunksRest(lay: Layout, records: seq<Record>)
    requires records != [] && RecordsFit(lay.width, records)
    ensures RecordFits(lay.width, records[0]) && RecordsFit(lay.width, records[1..])
    ensures RecordChunks(lay, records)[0] == RecordBytes(lay, records[0])
    ensures RecordChunks(lay, records)[1..] == RecordChunks(lay, records[1..])
  {
    assert RecordFits(lay.width, records[0]);
  }

  /** A credential on disk comes back first in the credentials read from
      where it sits. */
  lemma CredentialThenCredentials(lay: Layout, data: seq<byte>, pos: nat, r: Record, chunk: seq<byte>, next: nat)
    requires RecordFits(lay.width, r) && chunk == RecordBytes(lay, r)
    requires Holds(data, pos, chunk) && next == pos + |chunk|
    ensures next <= |data|
    ensures var rest := CredentialsFrom(lay, data, next);
      CredentialsFrom(lay, data, pos) == Scan([RecordRead(lay, r)] + rest.items, rest.ending)
  {
    CredentialRoundTrip(lay, data, pos, r);
    CredentialsThen(lay, data, pos, RecordRead(lay, r), next);
  }

  /** The loop after one credential goes on from the position after it. */
  lemma CredentialsThen(lay: Layout, data: seq<byte>, pos: nat, c: Credential, next: nat)
    requires pos <= |data| && CredentialAt(lay, data, pos) == Ok(c, next)
    ensures var rest := CredentialsFrom(lay, data, next);
      CredentialsFrom(lay, data, pos) == Scan([c] + rest.items, rest.ending)
  {
  }
}
