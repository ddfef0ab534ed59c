# ab3gy-pyutils in Dafny

This project models the core of ab3gy-pyutils, a set of Python utilities
for amateur-radio logging:

- `xmlnode`: a regex-based extractor for "XML" nodes.
- `qrzlookup`: a QRZ.com XML callsign-lookup client with its session handling.
- `qrzupload`: the classification of a QRZ.com logbook reply.
- `strutils`: date and time string formatting.
- `encode` and `decode`: fixed-width integer codecs built on `struct`.
- `n1mmmon`: the conversion of an N1MM+ contact broadcast to ADIF fields.
- `TextFile`: a line reader that skips blank and comment lines.

Each component has its own module. Python's `str` operations live in the
module `Strings`, and the subset of `struct` the codecs use lives in
`StructPack`.

Code that works by updating objects is modelled as classes whose methods
change their fields:

- `XmlNode.XmlNode`
- `QrzLookup.QrzLookup`
- `TextFile.TextFile`

The loop of `qrzupload.upload` is a method with a loop. `n1mmmon.getxml`
and `n1mmmon.xml2adif` build their results one statement at a time, and
are methods as well.

Each of these methods is proved against a specification function on
values. The properties are then proved about those functions:

- round trips of the codecs and of the date and time formats;
- the precedence and error rules of the upload reply;
- at most four requests per callsign lookup;
- the re-authentication rule;
- the exact set of ADIF fields a contact yields.

The I/O becomes parameters:

- HTTP: the lookup client takes a transport function from (request number,
  URL) to a reply. The upload classification takes the HTTP status, the
  reply body (already stripped, as `upload` strips it) and the info text
  the exception handlers left.
- Files: `TextFile` takes a map from file names to their lines. `get_file`
  takes the lines of the credentials file, or the message of the exception
  raised while reading it.

Where the code and its documentation disagree, the model follows the code:

- `_parse_session` stores the session key from a `Key` node even when the
  reply also carries an `Error` node.
- The node text of `xmlnode.parse` is greedy. It runs to the LAST closing
  tag, so two sibling nodes of the same name are read as one
  (`XmlNode.FindMergesSiblings`).
- The `TextFile` constructor opens the file through `open()` with that
  method's default arguments. The file is therefore always opened with
  `close_on_eof` true, whatever the constructor was given.
- `TextFile.open` calls `self.print_msg`, which the class does not define,
  when no file name is known. The model raises `AttributeError` there.
- The docstring of `get_file` asks for `<User>` and `<Pass>` nodes and
  allows a `<Key>` node. The code reads the key from a `SessKey` node, and
  it succeeds without `User` or `Pass` once a `Session` node exists.
  `QrzLookup.FileLoadedSpec` states what the code does.

## Model

| member | source | states |
|---|---|---|
| Strings.StripLeftSpec | xmlnode.py:152 | `lstrip` leaves a suffix that does not start with whitespace, and everything it removed is whitespace |
| Strings.StripRightSpec | xmlnode.py:152 | `rstrip` leaves a prefix that does not end with whitespace, and everything it removed is whitespace |
| Strings.StripIsTrimmedInfix | xmlnode.py:152 | `strip` yields an infix of the input that neither starts nor ends with whitespace, with only whitespace cut on either side |
| Strings.StripContained | xmlnode.py:152 | the stripped text occurs in the original string |
| Strings.StripIdempotent | qrzlookup.py:251-257 | stripping twice (node text that `parse` already stripped) equals stripping once |
| Strings.StripUnchanged | qrzlookup.py:251-257 | a string with no whitespace at either end is unchanged by `strip` |
| Strings.Slice | strutils.py:69 | `s[lo:hi]` has the clamped length and holds the characters of `s` from `lo` on |
| Strings.SliceFrom | n1mmmon.py:207 | `s[lo:]` has the clamped length and holds the characters of `s` from `lo` on |
| Strings.IndexOfSpec | qrzupload.py:182 | the separator search finds the first occurrence, and reports none only when there is none |
| Strings.Split | qrzupload.py:180-182 | `split` yields at least one piece, and no piece holds the separator |
| Strings.JoinSplit | qrzupload.py:180-182 | joining the pieces of `split` with the separator gives the string back |
| Strings.SplitJoin | qrzupload.py:180-182 | splitting a join of separator-free pieces gives those pieces back |
| Strings.SplitStep | qrzupload.py:180-182 | splitting at the first separator peels off the piece before it and splits the rest |
| XmlNode.SpaceRunSpec | xmlnode.py:147 | the `\s*` of the node pattern consumes exactly the run of whitespace |
| XmlNode.LastAtSpec | xmlnode.py:147 | the greedy `(.*)` ends at the LAST closing tag in range, and finds none only if there is none |
| XmlNode.MatchAt | xmlnode.py:147-148 | a match attempted at `i` starts at `i` and lies inside the content |
| XmlNode.MatchAtIsMatch | xmlnode.py:147-148 | a match found at a position has the pattern's shape: start tag, whitespace, attributes up to the first `>`, text, closing tag |
| XmlNode.MatchAtIff | xmlnode.py:147-148 | the attempt at `i` succeeds exactly when a start tag at `i` is followed, past its first `>`, by a closing tag |
| XmlNode.CandidateMatches | xmlnode.py:147-148 | a start tag followed, past a `>`, by a closing tag is enough for the attempt at that position to succeed |
| XmlNode.SearchFound | xmlnode.py:148 | `re.search` returns the attempt at the leftmost position where one succeeds |
| XmlNode.SearchNone | xmlnode.py:148 | when `re.search` finds nothing, no position has a match |
| XmlNode.FindMatchSpec | xmlnode.py:147-148 | a match exists exactly when some position can match; it has the pattern's shape, and no earlier position can match |
| XmlNode.MatchUnique | xmlnode.py:147-151 | two matches from the same start tag coincide, so the pattern determines the groups |
| XmlNode.FindMatchIs | xmlnode.py:147-148 | a match of the right shape with no earlier candidate is the one `re.search` returns |
| XmlNode.FindNeedsBothTags | xmlnode.py:147-149 | a node is found only when both its start tag and its closing tag occur in the content |
| XmlNode.FindWholeNode | xmlnode.py:147-153 | a content that is exactly one node yields that node's name, attributes and stripped text; the start tag is not word-anchored, so with no whitespace `<nodeX ...>` puts `X...` in the attributes |
| XmlNode.FindMergesSiblings | xmlnode.py:147-153 | two sibling nodes of the same name are read as one node whose text spans both |
| XmlNode.WordRun | xmlnode.py:91 | `\w+` takes the maximal run of word characters |
| XmlNode.NameOf | xmlnode.py:91-96 | the captured element name is a non-empty word taken right after the `<` |
| XmlNode.AllTags | xmlnode.py:91-99 | every element name listed is a non-empty word |
| XmlNode.FirstTag | xmlnode.py:93 | the element search finds the leftmost start of an element pattern, or reports none only if there is none |
| XmlNode.SkipNonTags | xmlnode.py:93-98 | positions where no element starts add no names |
| XmlNode.AllTagsStep | xmlnode.py:96-98 | one loop round records the first name and continues on the content cut after that name |
| XmlNode.NoTagNoNames | xmlnode.py:93-99 | a content with no element pattern gives no names |
| XmlNode.WordNameIsLiteral | xmlnode.py:91-96 | an element name that `element_names` returns is matched literally when handed to `parse` |
| XmlNode.XmlNode.constructor | xmlnode.py:74-83 | a new extractor holds empty name, attributes and text |
| XmlNode.XmlNode.NodeName | xmlnode.py:102-109 | `node_name` returns the name the last `parse` recorded |
| XmlNode.XmlNode.NodeAttrs | xmlnode.py:112-119 | `node_attrs` returns the attributes the last `parse` recorded |
| XmlNode.XmlNode.NodeText | xmlnode.py:122-132 | `node_text` returns the text the last `parse` recorded |
| XmlNode.XmlNode.Parse | xmlnode.py:135-158 | `parse` returns whether the node is found, always records the name, and stores the found attributes and stripped text, or empty strings |
| XmlNode.XmlNode.ElementNames | xmlnode.py:85-99 | the loop returns exactly the names of the reference definition, each a non-empty word |
| QrzLookup.TextOfStripped | qrzlookup.py:251-257 | the node text the client reads is already stripped, so its own `strip` changes nothing |
| QrzLookup.CredentialsSet | qrzlookup.py:493-513 | `set_credentials` stores user, password and agent, and leaves key, error, call data and the request log alone |
| QrzLookup.Received | qrzlookup.py:169-183 | a reply sets status, info, final URL and body; a body that cannot be read or decoded leaves the final URL with status -1 and the exception text; any other exception sets only status and info; nothing else changes |
| QrzLookup.Requested | qrzlookup.py:153-186 | `_http_request` appends one request to the log and succeeds exactly on status 200. An exception leaves an empty body. An exception raised while reading the body sets status -1 and keeps the final URL. Any other exception keeps the request URL as the response URL |
| QrzLookup.SessionParsed | qrzlookup.py:227-266 | `_parse_session` changes only key, error, message and subscription |
| QrzLookup.CallsignParsed | qrzlookup.py:189-224 | `_parse_callsign` changes only the call data and the error |
| QrzLookup.LookedUp | qrzlookup.py:269-315 | without a key, `_qrz_lookup` fails with the invalid-key error and sends nothing; otherwise it sends exactly the lookup URL |
| QrzLookup.SessionStarted | qrzlookup.py:516-569 | `start_session` fails without sending when the username or password is missing, and otherwise sends exactly the session URL |
| QrzLookup.SessionParsedOk | qrzlookup.py:227-266 | `_parse_session` succeeds iff the `QRZDatabase` and `Session` nodes exist and there is no `Error` node; success leaves an empty error; a missing `QRZDatabase` node is reported by name; only key, error, message and subscription change |
| QrzLookup.SessionKeyDespiteError | qrzlookup.py:249-258 | the key is taken from a `Key` node even when an `Error` node makes the parse fail |
| QrzLookup.CallDataSpec | qrzlookup.py:211-217 | the call data hold exactly the listed names whose node parses, each with its node text |
| QrzLookup.CallsignParsedData | qrzlookup.py:204-217 | after `_parse_callsign` the call data map the element names inside `Callsign` to their texts |
| QrzLookup.CallsignParsedWithoutDatabase | qrzlookup.py:203-224 | a missing `QRZDatabase` node is reported in the error, yet `_parse_callsign` returns True with the call data cleared |
| QrzLookup.LookedUpKeepsDataOnFailure | qrzlookup.py:290-315 | a lookup that fails before the callsign is parsed leaves the call data unchanged |
| QrzLookup.LookedUpTransportFailure | qrzlookup.py:295-315 | a lookup whose request fails in transport returns False and leaves key, error, message, subscription and call data unchanged |
| QrzLookup.SessionStartedTransportFailure | qrzlookup.py:548-569 | a failed HTTP request in `start_session` leaves key, error, message and call data unchanged |
| QrzLookup.CallsignLookedUpAtMostFour | qrzlookup.py:413-490 | `lookup_callsign` extends the request log by at most four requests and never rewrites it |
| QrzLookup.CallsignLookedUpReauthOnlyOnInvalidKey | qrzlookup.py:442-474 | once a key is in hand, held before or obtained by the first session, a first lookup that fails with any error other than exactly `Invalid session key` ends `lookup_callsign` with that lookup's result |
| QrzLookup.CallsignLookedUpRetries | qrzlookup.py:442-490 | once a key is in hand, held before or obtained by the first session, an invalid-key failure leads to a new session and, if that yields a key, one more lookup whose result is returned; otherwise False |
| QrzLookup.CallsignLookedUpNeedsKey | qrzlookup.py:440-454 | a session that starts without giving a key ends the lookup with False and no lookup request |
| QrzLookup.XmlDataNeedsStart | qrzlookup.py:367-381 | without a line holding `<QRZLookup>` nothing is collected from the credentials file |
| QrzLookup.FileLoadedWithoutStart | qrzlookup.py:389-401 | a credentials file without `<QRZLookup>` fails with `QRZLookup node not found` and changes nothing else |
| QrzLookup.FileLoadedSpec | qrzlookup.py:347-403 | `get_file` succeeds iff the file was read and the collected data hold a `Session` node inside a `QRZLookup` node; it changes only user, password, key and error, and keeps the error on success |
| QrzLookup.ReplyNamesAreLiteral | qrzlookup.py:245-256 | the reply node names are matched literally by the node pattern |
| QrzLookup.FileNamesAreLiteral | qrzlookup.py:389-396 | the credentials node names are matched literally by the node pattern |
| QrzLookup.QrzLookup.constructor | qrzlookup.py:97-129 | a new client is in the initial state with every field empty and nothing sent |
| QrzLookup.QrzLookup.CallData | qrzlookup.py:323-327 | `call_data` returns the client's call data |
| QrzLookup.QrzLookup.GetError | qrzlookup.py:330-334 | `get_error` returns the client's error text |
| QrzLookup.QrzLookup.GetMessage | qrzlookup.py:406-410 | `get_message` returns the client's message text |
| QrzLookup.QrzLookup.GetField | qrzlookup.py:337-344 | `get_field` returns the stored value, or the empty string for an unknown field |
| QrzLookup.QrzLookup.SetCredentials | qrzlookup.py:493-513 | the object ends in the state `CredentialsSet` gives |
| QrzLookup.QrzLookup.Receive | qrzlookup.py:169-183 | the object ends in the state `Received` gives |
| QrzLookup.QrzLookup.HttpRequest | qrzlookup.py:153-186 | the object ends in the state and result `Requested` gives |
| QrzLookup.QrzLookup.ParseSession | qrzlookup.py:227-266 | the object ends in the state and result `SessionParsed` gives |
| QrzLookup.QrzLookup.ReadSession | qrzlookup.py:249-258 | key (kept when absent), message, subscription and error take the stripped texts of their nodes; success iff there is no `Error` node |
| QrzLookup.QrzLookup.StrippedText | qrzlookup.py:250-257 | one `parse` and `strip`: found iff the node exists, with its stripped text |
| QrzLookup.QrzLookup.ParseCallsign | qrzlookup.py:189-224 | the object ends in the state and result `CallsignParsed` gives |
| QrzLookup.QrzLookup.AddCallData | qrzlookup.py:211-217 | the loop builds exactly the call data the reference map gives |
| QrzLookup.QrzLookup.Lookup | qrzlookup.py:269-315 | the object ends in the state and result `LookedUp` gives |
| QrzLookup.QrzLookup.StartSession | qrzlookup.py:516-569 | the object ends in the state and result `SessionStarted` gives |
| QrzLookup.QrzLookup.LookupCallsign | qrzlookup.py:413-490 | the object ends in the state and result `CallsignLookedUp` gives |
| QrzLookup.QrzLookup.CollectXml | qrzlookup.py:363-381 | the line loop collects exactly the stripped lines from `<QRZLookup>` to `</QRZLookup>` |
| QrzLookup.QrzLookup.ReadCredentials | qrzlookup.py:391-396 | user, password and key take the texts of their nodes when present and are kept otherwise |
| QrzLookup.QrzLookup.GetFile | qrzlookup.py:347-403 | the object ends in the state and result `FileLoaded` gives |
| StrUtils.FormatDate | strutils.py:55-70 | the formatted date has the first eight characters plus two dashes |
| StrUtils.FormatTime | strutils.py:73-92 | the formatted time has the first four characters plus two colons and two seconds characters |
| StrUtils.FormatTimestamp | strutils.py:95-112 | a timestamp of at least twelve characters formats to nineteen with a space at index 10 |
| StrUtils.UnformatDate | strutils.py:142-157 | a date of at least ten characters unformats to eight |
| StrUtils.UnformatTime | strutils.py:160-177 | `HH:MM:SS` unformats to six characters and `HH:MM` to four |
| StrUtils.FormatDateShape | strutils.py:69 | the formatted date has dashes at indices 4 and 7 and keeps the digits in order |
| StrUtils.UnformatFormatDate | strutils.py:55-70 | unformatting a formatted eight-character date gives it back |
| StrUtils.FormatUnformatDate | strutils.py:142-157 | formatting an unformatted dashed date gives it back |
| StrUtils.FormatTimeShape | strutils.py:87-91 | the formatted time has colons at indices 2 and 5, and `00` seconds when none are given |
| StrUtils.UnformatFormatTime | strutils.py:73-92 | `HHMMSS` survives formatting and unformatting |
| StrUtils.UnformatFormatShortTime | strutils.py:87-91 | `HHMM` comes back with `00` seconds appended |
| StrUtils.FormatUnformatTime | strutils.py:160-177 | formatting an unformatted `HH:MM:SS` gives it back |
| StrUtils.FormatUnformatShortTime | strutils.py:174-176 | `HH:MM` comes back as `HH:MM:00` |
| StrUtils.FormatTimestampParts | strutils.py:109-111 | the date and time halves of a formatted fourteen-character timestamp unformat to the input's halves |
| StructPack.ToBigEndian | encode.py:61 | the base-256 numeral has exactly `n` digits |
| StructPack.Reverse | encode.py:63 | the reversed bytes hold the same bytes in the opposite order |
| StructPack.Pack | encode.py:60-63 | `struct.pack` succeeds exactly for values the format holds, with `size` bytes |
| StructPack.Unpack | decode.py:60-63 | `struct.unpack` succeeds exactly on `size` bytes |
| StructPack.Prefix | decode.py:61 | `data[0:n]` has the clamped length and the leading bytes |
| StructPack.ReverseReverse | encode.py:60-63 | reversing twice gives the bytes back |
| StructPack.FromBigEndianBound | decode.py:61 | an `n`-byte numeral is below `256^n` |
| StructPack.FromToBigEndian | encode.py:61 | reading the digits of a value that fits gives the value |
| StructPack.ToFromBigEndian | decode.py:61 | writing out the value of a numeral gives the numeral |
| StructPack.FromBigEndianHead | decode.py:61 | the first byte weighs `256^(n-1)` |
| StructPack.TopBit | decode.py:61 | a numeral reaches half its range exactly when its top bit is set |
| StructPack.PackLittleIsReversed | encode.py:60-63 | little-endian bytes are the big-endian bytes reversed |
| StructPack.PackNegative | encode.py:61 | a negative value is packed as `v + 256^n` in two's complement |
| StructPack.UnpackInRange | decode.py:61 | an unpacked value lies in the format's range |
| StructPack.UnpackPack | decode.py:61 | unpacking packed bytes gives the value back |
| StructPack.PackUnpack | encode.py:61 | packing an unpacked value gives the bytes back |
| StructPack.SignedUnpack | decode.py:61 | the signed reading is the unsigned reading less `256^n` exactly when the top bit is set |
| Encode.Char | encode.py:55-63 | `char` succeeds iff `-0x80 <= v < 0x80`, with one byte |
| Encode.Byte | encode.py:66-74 | `byte` succeeds iff `0 <= v < 0x100`, with one byte |
| Encode.Word | encode.py:77-85 | `word` succeeds iff `-0x8000 <= v < 0x8000`, with two bytes |
| Encode.UWord | encode.py:88-96 | `uword` succeeds iff `0 <= v < 0x1_0000`, with two bytes |
| Encode.Long | encode.py:99-107 | `long` succeeds iff `-2^31 <= v < 2^31`, with four bytes |
| Encode.ULong | encode.py:110-118 | `ulong` succeeds iff `0 <= v < 2^32`, with four bytes |
| Encode.Quad | encode.py:121-129 | `quad` succeeds iff `-2^63 <= v < 2^63`, with eight bytes |
| Encode.UQuad | encode.py:132-140 | `uquad` succeeds iff `0 <= v < 2^64`, with eight bytes |
| Encode.LittleEndianIsReversed | encode.py:60-63 | any `endian` other than `"big"` gives the big-endian bytes reversed, and fails exactly when big-endian does |
| Encode.NegativeIsTwosComplement | encode.py:55-140 | each signed encoder writes a negative value as its unsigned counterpart writes `v + 2^(8n)` |
| Encode.DefaultIsMostSignificantFirst | encode.py:77-96 | with the default byte order (`ENCODE_DEFAULT_ENDIAN`, `big`) `uword` and `word` write the high byte first, then the low byte |
| Decode.Read | decode.py:55-63 | reading `n` bytes succeeds iff at least `n` are given, with a value in the format's range |
| Decode.Char | decode.py:55-63 | `char` succeeds iff the data hold a byte, giving a value in `[-0x80, 0x80)` |
| Decode.Byte | decode.py:66-74 | `byte` succeeds iff the data hold a byte, giving a value in `[0, 0x100)` |
| Decode.Word | decode.py:77-85 | `word` succeeds iff the data hold two bytes, giving a value in `[-0x8000, 0x8000)` |
| Decode.UWord | decode.py:88-96 | `uword` succeeds iff the data hold two bytes, giving a value in `[0, 0x1_0000)` |
| Decode.Long | decode.py:99-107 | `long` succeeds iff the data hold four bytes, giving a value in `[-2^31, 2^31)` |
| Decode.ULong | decode.py:110-118 | `ulong` succeeds iff the data hold four bytes, giving a value in `[0, 2^32)` |
| Decode.Quad | decode.py:121-129 | `quad` succeeds iff the data hold eight bytes, giving a value in `[-2^63, 2^63)` |
| Decode.UQuad | decode.py:132-140 | `uquad` succeeds iff the data hold eight bytes, giving a value in `[0, 2^64)` |
| Decode.ReadIgnoresTail | decode.py:61 | bytes past the first `n` do not change the result |
| Decode.IgnoresTrailingBytes | decode.py:55-140 | every decoder ignores what follows its bytes |
| Decode.ReadEncoded | decode.py:61 | decoding an encoding gives the value in either byte order |
| Decode.DecodeEncode | decode.py:55-140 | each decoder inverts its encoder on every value the encoder accepts |
| Decode.EncodeRead | encode.py:61 | encoding a decoded value gives the `n` bytes back |
| Decode.EncodeDecode | encode.py:55-140 | each encoder inverts its decoder on inputs of exactly its width |
| Decode.ReadSigned | decode.py:61 | a signed reading is the unsigned one less `256^n` exactly when the most significant byte has its top bit set |
| Decode.SignedFromUnsigned | decode.py:55-140 | each signed decoder is its unsigned counterpart offset by `2^(8n)` when the sign bit is set |
| Decode.DefaultReadsMostSignificantFirst | decode.py:88-96 | with the default byte order (`DECODE_DEFAULT_ENDIAN`, `big`) `uword` reads its first byte as the high byte, ignoring what follows |
| QrzUpload.SplitHasSecondField | qrzupload.py:182-183 | `r.split('=')` has a second field exactly when `r` holds `=` |
| QrzUpload.CollectRaises | qrzupload.py:179-183 | reading the reply raises `IndexError` exactly when some piece has no `=` |
| QrzUpload.CollectLast | qrzupload.py:181-183 | each piece stores its first field as key and its second as value, later pieces overriding earlier ones |
| QrzUpload.PieceValue | qrzupload.py:182-183 | a value is only the second `=`-field: anything after a second `=` is dropped |
| QrzUpload.Upload | qrzupload.py:176-216 | the method reads the reply into a dictionary with its loop and returns the outcome `Uploaded` gives |
| QrzUpload.Classify | qrzupload.py:185-210 | the checks on the dictionary return the outcome `Judged` gives |
| QrzUpload.CountIsZeroOrOne | qrzupload.py:187-202 | the count is 0 or 1, and 1 exactly when the result entry is `OK` or `REPLACE` |
| QrzUpload.StatusTakesPrecedence | qrzupload.py:187-196 | with a `STATUS` entry the `RESULT` entry is ignored |
| QrzUpload.NoResultEntry | qrzupload.py:203-204 | without `STATUS` or `RESULT` nothing is counted and the message says the result was not found |
| QrzUpload.FailureReported | qrzupload.py:189-192 | `FAIL` reports the reason, adds a non-empty extended reason on its own line, and raises `KeyError` when `REASON` or `EXTENDED` is missing |
| QrzUpload.ReplaceReported | qrzupload.py:206-210 | `REPLACE` counts the QSO and adds a line naming the replaced log id, raising `KeyError` without `LOGID` |
| QrzUpload.Non200Passes | qrzupload.py:211-216 | away from 200 nothing is counted; a missing status becomes -999, and an empty info `URL request error` |
| QrzUpload.UploadRaises | qrzupload.py:176-210 | only a 200 reply can raise; reading it raises exactly when some `&`-piece lacks `=`; the only errors are `IndexError` and `KeyError` for `REASON`, `EXTENDED` or `LOGID` |
| QrzUpload.EmptyReplyRaises | qrzupload.py:180-183 | an empty reply body raises `IndexError` |
| N1mmMon.ConvertBandIsLookup | n1mmmon.py:64-93 | `convert_band` is an exact-match lookup in the band plan and gives `''` for any other band |
| N1mmMon.GetXml | n1mmmon.py:142-169 | `getxml` returns the node's stripped text, and reports success iff that text is non-empty |
| N1mmMon.TextInIsStripped | n1mmmon.py:163-168 | the text `getxml` returns is stripped, and a non-empty text means the node was found |
| N1mmMon.ContactNamesAreLiteral | n1mmmon.py:193-235 | every element name `xml2adif` asks for is matched literally by the node pattern |
| N1mmMon.Xml2Adif | n1mmmon.py:172-240 | the status is true iff call, known band, mode and timestamp are all present, and the record holds exactly the fields the contact sets |
| N1mmMon.PartStep | n1mmmon.py:193-238 | handling one more field adds it exactly when the contact sets it |
| N1mmMon.CopyField | n1mmmon.py:193-194 | a copied field is set to the node text exactly when that text is non-empty |
| N1mmMon.SetBand | n1mmmon.py:195-201 | the band is set only when `convert_band` knows it, and an unknown band counts as not found |
| N1mmMon.SetTimestamp | n1mmmon.py:204-209 | a timestamp sets both the date (first ten characters unformatted) and the time (from index 11 unformatted) |
| N1mmMon.InRecord | n1mmmon.py:193-238 | the record holds a field exactly when the contact sets it, with that value |
| N1mmMon.FieldNamesDistinct | n1mmmon.py:194-237 | no two fields `xml2adif` sets share an ADIF name |
| N1mmMon.NamedRecord | n1mmmon.py:193-238 | under its ADIF name (`CALL`, `BAND`, `QSO_DATE`, ...), the record holds a field exactly when the contact sets it, with that value |
| N1mmMon.NamedRecordKeys | n1mmmon.py:193-238 | every name in the record is the ADIF name of a field the contact sets, with that field's value |
| N1mmMon.CompleteIffCoreFields | n1mmmon.py:239 | a contact is complete exactly when its record has a call, a band, a mode, a date and a time |
| N1mmMon.BandFromPlan | n1mmmon.py:195-201 | an unknown band leaves the record without a band and the contact incomplete; any band set is an ADIF band from the plan |
| N1mmMon.TimestampFields | n1mmmon.py:204-209 | an N1MM+ timestamp `YYYY-MM-DD HH:MM:SS` gives a date and time that format back to its halves |
| N1mmMon.CopiedFieldsAreStripped | n1mmmon.py:193-238 | a copied field is non-empty and stripped |
| TextFile.NextQualifyingSpec | TextFile.py:193-209 | the read loop skips only blank lines (and comments when they are ignored) and stops at the first other line |
| TextFile.NextQualifying | TextFile.py:193-209 | the line `readline` stops at lies between the current position and the end of the file |
| TextFile.NextLineQualifies | TextFile.py:201-209 | a line `readline` returns before end of file is non-empty and stripped, and never a comment when comments are ignored |
| TextFile.OnlyBlankLinesSkipped | TextFile.py:201-209 | with comments not ignored only blank lines are skipped, so comment lines are returned |
| TextFile.RemainingLinesQualify | TextFile.py:220-240 | every line `readlines` returns is non-empty and stripped, and none is a comment when comments are ignored |
| TextFile.RemainingAfterNext | TextFile.py:236-239 | reading the next line leaves exactly the rest of the lines for `readlines` |
| TextFile.ReadStep | TextFile.py:234-239 | a non-empty line from `readline` is the first remaining line, with the rest left after it; the empty line means no qualifying line remains |
| TextFile.TextFile.constructor | TextFile.py:74-100 | the name is stored; the file is opened only when a name is given and opening is asked for, and then with `close_on_eof` true |
| TextFile.TextFile.Close | TextFile.py:126-135 | afterwards no file is open, whatever the state before |
| TextFile.TextFile.Open | TextFile.py:138-170 | stores the flag and any new name; without a name it raises before closing; otherwise the result is whether the file exists, which is then open at its start |
| TextFile.TextFile.Readline | TextFile.py:173-217 | returns the next qualifying line stripped and moves past it; at end of file returns `''` and closes the file when `close_on_eof` is set; on a closed file returns `''` and changes nothing |
| TextFile.TextFile.Readlines | TextFile.py:220-240 | returns every remaining qualifying line in file order, leaving the file at its end or closed |

## Left out

- The network: `urllib` requests, timeouts and response headers are an
  abstract transport (the lookup client) or parameters (the upload
  classification). Building the upload's POST form, its request object and
  `User-Agent` header (`qrzupload.__init__` and the start of `upload`) is
  not modelled.
- `n1mmmon`'s UDP socket (`bind`, `get_message`, the receive loop) and the
  constructor and destructor, because they are I/O.
- The frequency fields `FREQ` and `FREQ_RX` of `xml2adif`, because they
  are floating point (`float(text)/100000.` printed with six decimals).
- N1mmMon.Xml2Adif: the `ValueError` that `float(text)` raises on a
  `txfreq` or `rxfreq` text that is not a number is not modelled. `xml2adif`
  then returns no status, and `get_message` catches the error. The status
  contract covers only messages whose frequency texts parse.
- The `adif` record class is represented by a map from the ADIF fields
  `xml2adif` sets to their values (`N1mmMon.AdifRecord`), and by the same map
  keyed by the ADIF field names (`N1mmMon.AdifNamed`). `get_adif`'s text
  rendering is not part of this model.
- `encode.float`, `encode.double`, `decode.float` and `decode.double`,
  because they are floating point. `encode.string` and `decode.string`,
  and `strutils.make_utf8`, because they are character encodings.
- `filetree.py` and `great_circle.py` are not part of this model.
- Verbose printing (`_print_msg` and the `print` calls) is left out.
- XmlNode.XmlNode.Parse: only node names without regex metacharacters are
  modelled. `parse` pastes the name into the pattern unescaped. Every
  name the modelled code passes is literal (`QrzLookup.ReplyNamesAreLiteral`,
  `QrzLookup.FileNamesAreLiteral`, `N1mmMon.ContactNamesAreLiteral`,
  `XmlNode.WordNameIsLiteral`).
- XmlNode.AllTags: `\w` is modelled as ASCII letters, digits and the
  underscore; Python also matches non-ASCII word characters.
- TextFile.TextFile.Readline: an exception raised by the file object while
  reading (the handler that returns `''` and closes) is not modelled. The
  file's lines are a fixed value, so reading cannot fail.
- TextFile.TextFile.Close: an exception from the file object's `close` is
  swallowed by `close`; closing a modelled file cannot fail.
- The destructor `TextFile.__del__` is left out, because Dafny has no
  finalisation.
- QrzLookup.QrzLookup.GetFile: the file is read before the model is called
  (its lines, or the message of the exception raised while opening or
  reading it). An exception part-way through reading is modelled like one
  raised at the start.
