# krb5format in Dafny

A model of `krb5format.py`, a small reader and writer of MIT Kerberos 5
files. It covers two formats:

- **Keytab** (`Keytab`, as in `/etc/krb5.keytab`): a u16 version, then a
  sequence of entries. Each entry is prefixed by a signed 32-bit size, and a
  negative size marks a hole to be skipped. A keytab can be loaded, saved,
  and filtered by a pattern on the principal name.
- **Credential cache** (`CredentialCache`, as in `/tmp/krb5cc_*`): a
  version, a block of tagged headers and a default principal, followed by
  credentials. Each credential holds a client and a server principal, a key
  block, four times, an `is_skey` byte, little-endian ticket flags, address
  and authdata segments, and two tickets. The cache can be loaded and asked
  `is_tgt_expired`.

Both formats share the readers of the base class `Krb5File`:
- version-dependent principals (layouts 0x0504, 0x0502 and older);
- length-prefixed arrays, whose length field starts 2 bytes wide and becomes
  4 bytes wide when a file of version exactly 0x0504 is loaded (any other
  version keeps the current width);
- key blocks.

The model has two layers:

- **Decoders as functions.** Each reader is a pure function over the file
  contents and a position. It returns `Ok(value, next)`, or `StructError`
  when a fixed-width field comes back short (`struct.error`), or `Eof` (the
  `EOFError` the entry loops catch).
- **Readers as methods.** The source's readers are methods of a `File` class
  (contents plus read position), and each is proved to return its function
  and to leave the position after the value. The `Keytab` and
  `CredentialCache` classes hold the fields that `load`, `filter` and `save`
  update.

The properties proved include:
- hole skipping;
- what ends the entry loops;
- that `filter` keeps exactly the matching entries, in order;
- that a saved keytab loads back;
- that every part of the credential-cache layout, and a whole cache,
  decodes back to what was laid out;
- which credential decides `is_tgt_expired`.

Modules:
- `Bytes`: fields, packing and endianness (`bytes.dfy`);
- `Names`: splitting and joining principal names (`names.dfy`);
- `Stream`: the file and its fixed-width fields (`stream.dfy`);
- `Krb5File`: the shared readers (`krb5file.dfy`);
- `Keytab` with `KeytabProperties` (`keytab.dfy`, `keytab_properties.dfy`);
- `CredentialCache` with `CacheProperties` (`ccache.dfy`, `ccache_properties.dfy`);
- `Wrappers`: `Option` and `Result` (`wrappers.dfy`).

The code and the format's prose description disagree in the places below. The
model follows the code:

- **A short array read is not an error.** `f.read(length)` returns whatever is
  left of the file, so a truncated array body reads as a shorter array. Only
  fixed-width fields raise `struct.error`.
- **A principal cut short at its start reads as end of file.** In the
  credential cache this holds for the server principal too. For version
  0x0504 it holds when either the name type or the component count comes back
  short, not only the first read of an entry.
- **A principal value must contain exactly one `@` to be written.** The
  writer uses `split('@')`, so it does not split at the last `@`.
- **A failed load keeps the entries read before it failed.** `load` appends
  each entry as it is read, so when a `struct.error` escapes, those entries
  stay in the object.

## Model

| member | source | states |
|---|---|---|
| Stream.UIntAt | krb5format.py:46-49 | an unsigned big-endian field of `width` bytes is read exactly when that many bytes remain, its value is below 256^width, and a short field is `struct.error`, never EOF |
| Stream.UIntAtPacked | krb5format.py:46-49 | a field reads back the number `struct.pack` put there |
| Stream.U8AtPacked | krb5format.py:46 | a one-byte field reads back the byte written there |
| Stream.U16At | krb5format.py:47 | `uint16.unpack(read(2))` succeeds exactly when two bytes remain and gives their big-endian value |
| Stream.U32At | krb5format.py:49 | `uint32.unpack(read(4))` succeeds exactly when four bytes remain and gives their big-endian value |
| Stream.U32LEAt | krb5format.py:242 | `struct.unpack("<L", ...)` is the big-endian value of the four bytes reversed |
| Stream.Window | krb5format.py:86 | `read(n)` gives the next `n` bytes of the file, or all the bytes that are left when fewer remain |
| Stream.U8At | krb5format.py:173 | `char.unpack(read(1))` succeeds exactly when a byte remains and gives that byte, a short read being `struct.error` |
| Stream.HoldsWindow | krb5format.py:86 | reading as many bytes as were written gives back exactly those bytes |
| Stream.File.Read | krb5format.py:86 | `read(n)` returns the window at the position and advances the position past it |
| Stream.File.ReadUInt | krb5format.py:46-49 | reading a field returns its decoder's result and advances by what was read |
| Stream.File.ReadU8 | krb5format.py:172-173 | `char.unpack(read(1))` returns the one-byte decoder's result |
| Stream.File.ReadU16 | krb5format.py:81-82 | `uint16.unpack(read(2))` returns the u16 decoder's result |
| Stream.File.ReadU32 | krb5format.py:106-107 | `uint32.unpack(read(4))` returns the u32 decoder's result |
| Stream.File.ReadU32LE | krb5format.py:242 | the little-endian ticket-flags read returns the little-endian decoder's result |
| Stream.FirstChunk | krb5format.py:131-132 | records written one after another can be taken apart into the first and the rest |
| Bytes.PackUIntOfUInt | krb5format.py:46-49 | packing then unpacking a field of any width gives the number back |
| Bytes.PackUInt | krb5format.py:46-49 | `struct.pack` of a number into a field of its width reads back as that number |
| Bytes.PackInt32 | krb5format.py:48 | `int32.pack` of a value in range gives four bytes whose signed reading is that value |
| Bytes.LittleEndianIsReversedBigEndian | krb5format.py:242 | the little-endian reading of four bytes equals the big-endian reading of them reversed |
| Bytes.ReversedTwice | krb5format.py:242 | reversing the bytes twice gives them back |
| Names.SplitPiecesFree | krb5format.py:195-196 | no piece of a `split(sep)` contains the separator |
| Names.SplitHead | krb5format.py:223 | the first piece of `split('/')` is the text up to the first `/`, or all of it |
| Names.Split | krb5format.py:195-196 | `split(sep)` always gives at least one piece (the pieces themselves are stated by SplitHead, SplitLength and SplitPiecesFree) |
| Names.Join | krb5format.py:103 | `"/".join(components)` of separator-free pieces holds exactly one separator fewer than there are pieces |
| Names.JoinSplit | krb5format.py:103 | joining the pieces of a split with its separator gives back the original string |
| Names.SplitJoin | krb5format.py:195-196 | splitting a join of pieces free of the separator gives back the pieces |
| Names.SplitLength | krb5format.py:195 | `split(sep)` gives one more piece than there are separators, so a value splits into a principal part and a realm exactly when it holds one `@` |
| Krb5File.WidthAfter | krb5format.py:67-68 | the array length field becomes 4 bytes wide for version 0x0504 and otherwise keeps its current width |
| Krb5File.ArrayAt | krb5format.py:84-87 | an array is read exactly when its length field is complete; its bytes are the next bytes of the file, as many as the length field says or all that is left when fewer remain |
| Krb5File.ArraysAt | krb5format.py:98-100 | reading `n` arrays in turn gives exactly `n` arrays, or `struct.error` when a length field is cut short |
| Krb5File.ArrayBytes | krb5format.py:118-119 | `_make_array` takes the width of the length field plus the array's own length; ArrayRoundTrip reads it back |
| Krb5File.ArrayRoundTrip | krb5format.py:84-87 | `_read_array` reads back what `_make_array` wrote |
| Krb5File.ArraysRoundTrip | krb5format.py:99-100 | reading `n` arrays in turn reads back `n` arrays written in turn |
| Krb5File.LeadAt | krb5format.py:91-96 | a short name type or component count at the start of a principal is EOF; the name type is read only for 0x0504 |
| Krb5File.PrincipalAt | krb5format.py:89-104 | the start of a principal is EOF exactly when it is cut short; the name type is present exactly for versions 0x0502 and 0x0504 |
| Krb5File.PrincipalLayout0504 | krb5format.py:89-104 | a principal laid out name type first reads back as its name type and joined value |
| Krb5File.PrincipalLayout0502 | krb5format.py:89-104 | a principal laid out with the name type after the components reads back the same way |
| Krb5File.PrincipalLayoutOther | krb5format.py:89-104 | a principal of an older version, laid out with no name type, reads back without one |
| Krb5File.PrincipalRoundTrip | krb5format.py:89-104 | every version's principal layout reads back as its name type and `components/...@realm` value, and reading ends where the layout ends |
| Krb5File.KeyBlockAt | krb5format.py:109-116 | a key block holds an etype exactly for versions after 0x0502 |
| Krb5File.KeyBlockRoundTrip | krb5format.py:109-116 | a key block laid out for the version reads back its type, etype (after 0x0502) and key |
| Krb5File.ReadArray | krb5format.py:84-87 | `_read_array` returns the array decoder's result and leaves the position after it |
| Krb5File.ReadArrays | krb5format.py:98-100 | the component loop returns the decoder's components and leaves the position after them |
| Krb5File.ReadPrincipal | krb5format.py:89-104 | `_read_principal` returns the principal decoder's result and leaves the position after it |
| Krb5File.ReadKeyblock | krb5format.py:109-116 | `_read_keyblock` returns the key-block decoder's result and leaves the position after it |
| Keytab.EntrySizeAt | krb5format.py:186-191 | fewer than four bytes left is EOF; otherwise the size is the signed 32-bit value |
| Keytab.SizeAfterHoles | krb5format.py:159-161 | the size the hole loop stops at is never negative, and an entry size is never a `struct.error` |
| Keytab.HoleResumes | krb5format.py:160-161 | after a hole of `-size` bytes, reading resumes that many bytes on, or at the end of the file |
| Keytab.VnoAt | krb5format.py:175-184 | the trailing kvno is read exactly when four or more bytes of the size remain, a short one is `struct.error`, and the rest of the size is skipped |
| Keytab.FieldsAt | krb5format.py:163-169 | the fixed fields of an entry are EOF exactly when its principal is cut short at its start |
| Keytab.BodyAt | krb5format.py:162-170 | an entry body ends no earlier than its size says unless the file ends first |
| Keytab.EntryAt | krb5format.py:158-170 | an entry always advances the position, and fewer than four bytes left is EOF |
| Keytab.EntriesStep | krb5format.py:70-75 | the entry loop stops cleanly on EOF, fails on `struct.error`, and otherwise appends the entry and goes on |
| Keytab.EntriesFrom | krb5format.py:69-75 | the `while 1` loop never appends more entries than there are bytes after its start, and fewer than four bytes left end it cleanly with no entry |
| Keytab.Decode | krb5format.py:64-76 | a keytab too short for its version fails; otherwise the version and array width are those of `load` |
| Keytab.LoadEntry | krb5format.py:158-170 | `_load_entry` returns the entry decoder's result and leaves the position after it |
| Keytab.LoadNext | krb5format.py:70-75 | one turn of the `while 1` loop keeps the outcome of the whole loop unchanged |
| Keytab.SkipHoles | krb5format.py:159-161 | the hole loop returns the first non-negative size |
| Keytab.ReadFields | krb5format.py:163-169 | reading principal, timestamp, vno8 and key block returns the fields decoder's result |
| Keytab.ReadBody | krb5format.py:162-170 | reading an entry after its size returns the body decoder's result |
| Keytab.ReadVno | krb5format.py:175-184 | `_read_vno` returns the kvno decoder's result and leaves the position after the skipped bytes |
| Keytab.GetEntrySize | krb5format.py:186-191 | `__get_entry_size` returns the size decoder's result |
| Keytab.Keytab.Empty | krb5format.py:59-62 | a fresh keytab has no entries and two-byte arrays |
| Keytab.Keytab.Load | krb5format.py:64-76 | `load` sets the version and array width and appends the entries read; it reports success exactly when the loop ended on EOF |
| Keytab.Keytab.LoadEntries | krb5format.py:69-75 | the entry loop appends exactly the entries the decoder reads |
| Keytab.VnoBytes | krb5format.py:206-207 | the trailing kvno is written exactly when it is present and not zero |
| Keytab.WrittenPrincipal | krb5format.py:195-201 | the writer's principal starts with a u16 component count whatever the array width, and PrincipalReadsBack shows that with 2-byte arrays it reads back under the 0x0502 layout |
| Keytab.WrittenKey | krb5format.py:204-205 | the writer's key block has no etype: with 2-byte arrays it is exactly the 0x0502 key block layout |
| Keytab.WrittenFields | krb5format.py:202-205 | timestamp, vno8 and key block take seven bytes plus the key array |
| Keytab.EntryBody | krb5format.py:194-207 | the body leaves exactly four bytes after the key block when a nonzero kvno is written and none otherwise, which is what `_read_vno` tests |
| Keytab.EncodeEntry | krb5format.py:193-209 | writing fails exactly on a value without exactly one `@`, fails without a name type, and otherwise the record's size prefix is its length |
| Keytab.EncodeKeytab | krb5format.py:126-132 | a saved keytab starts with its version and stops at the first entry that cannot be written |
| Keytab.Keytab.Save | krb5format.py:126-132 | `save` writes the version, then each entry record, until one fails |
| Keytab.Select | krb5format.py:136 | the entries selected are at most all the entries |
| Keytab.SelectMembers | krb5format.py:136-140 | an entry is kept exactly when it was there and the pattern matches its principal |
| Keytab.RemoveFirst | krb5format.py:143 | `list.remove` shortens the list by exactly one |
| Keytab.RemoveFirstOne | krb5format.py:143 | `list.remove(x)` takes out the first occurrence of `x` and keeps the others in order, so one copy of `x` and nothing else goes |
| Keytab.DropAllNonMatching | krb5format.py:137-143 | removing every non-matching entry in turn leaves the matching entries in their order |
| Keytab.OtherKeys | krb5format.py:137-140 | the entries not among the matches are exactly the non-matching entries |
| Keytab.Keytab.Filter | krb5format.py:134-143 | `filter` leaves exactly the matching entries in their original order, version unchanged |
| KeytabProperties.HolesSkipped | krb5format.py:159-161 | any run of holes is skipped to the size after it |
| KeytabProperties.ShortTailEnds | krb5format.py:186-189 | fewer than four bytes after the last entry end the load cleanly |
| KeytabProperties.HoleToEndEnds | krb5format.py:159-161 | a hole that reaches the end of the file ends the load cleanly |
| KeytabProperties.EntriesNameTypes | krb5format.py:89-104 | every loaded entry has a name type exactly when the version is 0x0502 or 0x0504 |
| KeytabProperties.OldVersionCannotBeSaved | krb5format.py:193-209 | a non-empty keytab of an older version cannot be saved: writing stops at its first entry |
| KeytabProperties.NormalizedAll | krb5format.py:193-209 | a save and load changes each entry only by the etype and zero kvno the writer drops |
| KeytabProperties.EntryReadsBack | krb5format.py:193-209 | a written entry record reads back as the entry, without the etype and with a zero kvno absent |
| KeytabProperties.EntriesReadBack | krb5format.py:69-75 | the written records read back as all the entries and the loop ends on EOF |
| KeytabProperties.SaveThenLoad | krb5format.py:126-132 | loading a saved 0x0502 keytab gives its version, width and entries back |
| CredentialCache.HeaderAt | krb5format.py:254-257 | one header is read exactly when its tag and length are complete; the tag is the first u16, and the data is the next bytes, as many as the length says or all that is left when fewer remain |
| CredentialCache.HeaderLoop | krb5format.py:253-257 | the header loop stops at or past the header budget and always advances while below it |
| CredentialCache.HeadersAt | krb5format.py:249-258 | the headers end no earlier than the header length says |
| CredentialCache.TimesAt | krb5format.py:260-266 | the four times are read exactly when sixteen bytes remain |
| CredentialCache.SegmentsAt | krb5format.py:268-273 | a segment list holds as many segments as its count says |
| CredentialCache.CredentialAt | krb5format.py:235-247 | a credential always advances the position, and it ends the loop with EOF exactly when the leading fields of its client principal, or of its server principal after a complete client, are cut short; any other short field is `struct.error` |
| CredentialCache.FixedAt | krb5format.py:239-242 | key block, times, `is_skey` and flags are read after the two principals, which are kept |
| CredentialCache.CredentialTail | krb5format.py:243-246 | segments and tickets are read after the fixed fields, which are kept |
| CredentialCache.CredentialsStep | krb5format.py:70-75 | the credential loop stops cleanly on EOF, fails on `struct.error`, and otherwise appends and goes on |
| CredentialCache.CredentialsFrom | krb5format.py:69-75 | the credential loop never appends more credentials than there are bytes after its start, and a file too short for a principal's leading fields ends it cleanly with none |
| CredentialCache.Decode | krb5format.py:64-76 | a cache too short for its version fails; otherwise the version and width are those of `load` |
| CredentialCache.ReadHeaders | krb5format.py:249-258 | `_read_headers` returns the headers decoder's result and leaves the position after them |
| CredentialCache.ReadHeader | krb5format.py:254-257 | one turn of the header loop returns the header decoder's result |
| CredentialCache.HeaderLoopStep | krb5format.py:253-257 | one turn of the header loop keeps the loop's outcome unchanged |
| CredentialCache.ReadTimes | krb5format.py:260-266 | `_read_times` returns the times decoder's result |
| CredentialCache.ReadSegments | krb5format.py:268-273 | `_read_segments` returns the segments decoder's result |
| CredentialCache.LoadEntry | krb5format.py:235-247 | `_load_entry` returns the credential decoder's result and leaves the position after it |
| CredentialCache.ReadFixed | krb5format.py:239-242 | reading the fixed fields returns their decoder's result |
| CredentialCache.ReadCredentialTail | krb5format.py:243-246 | reading segments and tickets returns their decoder's result |
| CredentialCache.LoadNext | krb5format.py:70-75 | one turn of the credential loop keeps the outcome of the whole loop unchanged |
| CredentialCache.CredentialCache.Empty | krb5format.py:59-62 | a fresh cache has no credentials and two-byte arrays |
| CredentialCache.CredentialCache.Load | krb5format.py:64-76 | `load` sets the version, width, headers and default principal and appends the credentials; an exception from `_load_intro` ends the load |
| CredentialCache.CredentialCache.LoadIntro | krb5format.py:231-233 | `_load_intro` sets the headers, then the default principal, and fails when either cannot be read |
| CredentialCache.CredentialCache.LoadEntries | krb5format.py:69-75 | the credential loop appends exactly the credentials the decoder reads |
| CredentialCache.CredentialCache.IsTgtExpired | krb5format.py:216-229 | `is_tgt_expired` gives the answer of the first ticket-granting ticket |
| CredentialCache.IsTgt | krb5format.py:222-224 | a credential is a ticket-granting ticket exactly when the text of its server before the first `/` is `krbtgt` |
| CredentialCache.TgtExpired | krb5format.py:216-229 | an answer always comes from a ticket-granting ticket in the cache: expired exactly when its end time is at most now plus the grace |
| CacheProperties.FirstTgtDecides | krb5format.py:220-229 | the first ticket-granting ticket decides: expired exactly when its end time is at most now plus the grace |
| CacheProperties.NoTgtNoAnswer | krb5format.py:220-229 | there is no answer exactly when no credential is a ticket-granting ticket |
| CacheProperties.ExpiredWithinLonger | krb5format.py:227 | an expiry within a grace period stays an expiry within any longer one |
| CacheProperties.HeaderRoundTrip | krb5format.py:254-257 | a header laid out as tag, length and data reads back |
| CacheProperties.HeaderLoopRoundTrip | krb5format.py:253-257 | headers laid out one after another read back exactly up to the budget |
| CacheProperties.HeadersRoundTrip | krb5format.py:249-258 | a header block with its total length reads back as its headers |
| CacheProperties.TimesRoundTrip | krb5format.py:260-266 | four times laid out big-endian read back |
| CacheProperties.FlagsRoundTrip | krb5format.py:242 | ticket flags laid out little-endian read back |
| CacheProperties.SegmentsRoundTrip | krb5format.py:268-273 | a count and that many arrays read back as the segments |
| CacheProperties.CredentialRoundTrip | krb5format.py:235-247 | a credential laid out field by field reads back as that credential |
| CacheProperties.RecordsRoundTrip | krb5format.py:235-247 | credentials laid out one after another read back in order and the loop ends on EOF |
| CacheProperties.CacheRoundTrip | krb5format.py:64-76 | a whole cache laid out as version, headers, default principal and credentials loads back as all of them |

## Left out

- Opening, writing and `chmod` of files (krb5format.py:65, 128-129): the
  model works on the bytes read and written. `Krb5File(filename)` is the
  constructor followed by `Load` of the file's contents.
- `klist` (krb5format.py:145-156): it only prints.
- The clock in `is_tgt_expired` (krb5format.py:226): the current time is the
  parameter `now`.
- The regular expression of `filter` (krb5format.py:136-137): the compiled
  pattern's `match` is the parameter `matches`.
- The read position after a failed read: nothing reads it once a
  `struct.error` has escaped or an `EOFError` has ended the loop.
- Python 2's mixing of `str` and bytes in the writer (krb5format.py:194): the
  record is built as bytes.
- Keytab.EncodeEntry: fixed fields (name type, timestamp, vno8, key type,
  kvno) are typed to their widths, so `struct.pack` can only overflow on a
  length.
- CacheProperties.CredentialRoundTrip: the source has no credential-cache
  writer, so the round trips of the cache use a layout written only for this
  model (`RecordBytes`, `CacheBytes`).
- CacheProperties.HeadersRoundTrip: only header blocks whose headers end
  exactly at the budget are laid out. A header that runs past the budget is
  decoded as the loop does, but no property is stated about it.
- `setup.py` and the packaging of the module are not part of this model.
