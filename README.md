# memsaab in Dafny

A verified model of the core of memsaab, a small memcached-style cache server that speaks
the text protocol of memcached's `protocol.txt` for the `set` and `get` commands only.
Three pieces of its sequential logic are modelled:

- **The command parser** (`server::parse`): a received frame is split on white space as
  `std::istream_iterator<std::string>` does (module `Tokens`), integer fields are read as
  `std::stoi` reads them (module `Numbers`), and the line is classified as a `set` header, a
  `get` request, or a data line whose first token alone is returned (module `Parser`). The
  parser is pure, so it is modelled as functions over strings and token sequences. A token that
  is missing, which in the C++ means indexing past the end of the token vector, and a field that
  `std::stoi` rejects become an explicit `ParseError`.
- **The storage** (`storage_t`, module `Storage`): a class `Store` with the two maps the
  source keeps, key to value and key to expiry time. `Add` overwrites both and `Get` is a plain
  lookup that never looks at expiry. The pure `Tables`, `Put` and `Find` specify it, and
  the properties are proved about them.
- **The per-connection chunk handler** (the body of the `data_event` callback, module
  `Session`): a class `Connection` holds the byte buffer `commands`, the last frame seen,
  the pending `set` attributes and the connection's store. `OnChunk` appends the chunk
  byte by byte, suppresses a repeated frame, parses the frame and acts on the result. It is
  proved equal to the pure `HandleChunk`, and the lemmas about the handler are stated over
  `HandleChunk`.

The clock is a parameter `now`, in whole seconds. Received chunks, frames, keys and values are
Dafny strings, and each `char` stands for one byte of the stream. No behaviour is lost this way:
`isspace` in the "C" locale accepts no byte at or above 0x80, and neither does `IsSpace`. The event loop, sockets and logging are not
modelled. Writing to the client is the `Output` that the handler returns.

Where the code differs from memcached's protocol description, the model follows the code:

- Each connection has its own store, because `resource_handle_t` holds a `storage_t` by value.
- Nothing ever expires. The expiry time is recorded, but lookups ignore it.
- A `get` hit writes the raw value bytes, with no `VALUE ...`/`END` framing.
- `noreply` is parsed but never honoured: a data line is always acknowledged.
- A chunk that does not end in CR LF is dropped rather than buffered. The buffer only carries
  bytes over after a duplicate frame or a frame that failed to parse.
- The pending attributes are never cleared. A data line with no header before it is stored
  under the empty key.
- Data lines keep only their first word.
- Keywords are case-sensitive.
- Parsing never produces the `UNKNOWN` command type.

## Model

| member | source | states |
|---|---|---|
| `Tokens.Tokenize` | src/server.cpp:16-19 | every token is non-empty and free of white space; a line has no tokens exactly when it is all white space |
| `Tokens.TokenizeUnwords` | src/server.cpp:16-19 | tokenising words joined by single spaces, followed by any white space such as CR LF, gives back exactly those words |
| `Numbers.StoiFormatInt` | src/server.cpp:46-48 | `std::stoi` on a written integer, followed by anything not starting with a digit, returns that integer when it fits in an `int` and throws `out_of_range` otherwise |
| `Numbers.StoiSignedDigits` | src/server.cpp:46-48 | `std::stoi` on an optional minus sign and a run of digits returns their signed value, or `out_of_range` when that value does not fit in an `int` |
| `Numbers.Stoi` | src/server.cpp:46-48 | `std::stoi` in base 10: an empty or all-white-space field throws `invalid_argument`, and a field that starts with a digit always converts unless its value does not fit in an `int` |
| `Numbers.StoiPlusSign` | src/server.cpp:46-48 | a leading `+` is accepted and changes nothing, so `+5x` reads as 5 |
| `Numbers.StoiSignWithoutDigits` | src/server.cpp:46-48 | a sign with no digit right after it (`-`, `+`, `-x`) throws `invalid_argument` |
| `Numbers.StoiRejectsNonNumeric` | src/server.cpp:46-48 | a field that starts with neither a sign nor a digit throws `invalid_argument` |
| `Parser.Field` | src/server.cpp:46-48 | reading token `i` fails with a missing token exactly when there are at most `i` tokens, and otherwise succeeds exactly when `std::stoi` does, with its value, and fails with that token's index and the exception `std::stoi` throws |
| `Parser.ParseTokens` | src/server.cpp:21-49 | no tokens is an error; a first token other than exactly `set`/`get` comes back alone as a data line; a command's type follows its first token and its key is token 1; the reply flag is NO iff there are 6 tokens and the last is `noreply`; `get` needs a key and has zero numeric fields; `set` needs three integer fields, with flags cut to 16 bits, the expiry time as read, and the byte count taken modulo 2^32; a failing `set` reports the first of fields 2, 3, 4 that fails, in that order |
| `Parser.Parse` | src/server.cpp:14-50 | a line fails for lack of a first token exactly when it is all white space; a data line yields its first token, a word that is neither `set` nor `get`; a command is never `UNKNOWN` and its key is a word |
| `Parser.ParseSetWords` | src/server.cpp:34-49 | the tokens of a written `set` header convert to its key, its fields truncated as the casts do, and reply NO exactly when `noreply` was written |
| `Parser.ParseFormatSet` | src/server.cpp:14-49 | a `set` header line written with `int` fields parses back to its key and fields, flags modulo 2^16 and byte count modulo 2^32, so in-range fields are recovered exactly; the trailing CR LF is dropped by tokenising |
| `Parser.ParseFormatSetOverflow` | src/server.cpp:46-48 | a flags, expiry-time or byte-count field outside the range of `int` makes the parse fail with `out_of_range` on token 2, 3 or 4, and the first such field in that order is the one reported |
| `Parser.ParseSetWithoutExpiry` | src/server.cpp:46-47 | a `set` header that stops after its flags fails because token 3 is missing |
| `Parser.ParseFormatGet` | src/server.cpp:42-44 | a `get` line parses to a GET of its key with flags, expiry time and byte count all 0 |
| `Parser.ParseGetWithoutKey` | src/server.cpp:42-43 | `get` alone fails because token 1 is missing |
| `Parser.ParseFormatData` | src/server.cpp:30-32 | a line whose first word is not exactly `set` or `get` is a data line, and only that first word is returned |
| `Storage.Find` | src/server.hpp:55-60 | lookup yields a value exactly when the key is in the value map, and then the stored value; the expiry map is not consulted |
| `Storage.Put` | src/server.hpp:48-53 | after `add` the key holds the new value and expires at `now + expiry_time` (so in the past for a negative time, at `now` for zero); every other key keeps its value and expiry time; keys with values stay paired with keys with expiry times |
| `Storage.PutLastWriteWins` | src/server.hpp:48-53 | a second `add` on the same key replaces both the value and the expiry time of the first |
| `Storage.PutCommutes` | src/server.hpp:48-53 | `add` on two different keys gives the same tables in either order |
| `Storage.Store.constructor` | src/server.hpp:43-46 | a new store has both maps empty, so it satisfies the invariant that the two maps have the same keys |
| `Storage.Store.Add` | src/server.hpp:48-53 | `add` changes the two maps in place exactly as `Put` says, and keeps the two maps on the same keys |
| `Storage.Store.Get` | src/server.hpp:55-60 | `get` changes nothing and returns what `Find` gives, whatever the expiry time |
| `Session.Initial` | src/server.hpp:78-108 | a new connection's state (`resource_handle_t()` with an empty buffer) has nothing buffered or stored, and its first frame is never taken for a duplicate |
| `Session.Accepted` | src/server.hpp:119-120 | a chunk is looked at exactly when it is longer than two bytes and its last two bytes are CR LF |
| `Session.HandleChunk` | src/server.hpp:114-157 | a chunk that is not looked at changes nothing; any other leaves its frame as the last one seen; a duplicate of the last frame stays in the buffer; the store changes only when a data line is stored and acknowledged; the pending attributes change only on a header that writes nothing |
| `Session.ChunkIgnored` | src/server.hpp:119-120 | a chunk of at most two bytes, or one not ending in CR LF, changes no state and writes nothing |
| `Session.DuplicateSuppressed` | src/server.hpp:121-127 | a frame equal to the last one seen writes nothing and leaves the store and the pending attributes alone, while the buffer keeps the appended bytes |
| `Session.NewFrameRecorded` | src/server.hpp:124-156 | any other frame becomes the last frame seen; after a frame that parses the buffer is empty; a frame that does not parse aborts the handler with the buffer still full and nothing else changed |
| `Session.SetHeaderStep` | src/server.hpp:136-141 | a SET command sets the pending key and expiry time from the command and writes nothing |
| `Session.GetStep` | src/server.hpp:142-150 | a GET command writes exactly the stored value on a hit and exactly `END\r\n` on a miss, and changes neither the store nor the pending attributes |
| `Session.DataStep` | src/server.hpp:152-156 | a data line stores its first word under the pending key with the pending expiry time, writes `STORED\r\n`, and keeps the pending attributes |
| `Session.HandleChunkKeepsAligned` | src/server.hpp:114-157 | the handler keeps every stored key paired with an expiry time and never removes a key |
| `Session.LineAccepted` | src/server.hpp:119-120 | a line written as words and CR LF passes the length and terminator check |
| `Session.ParsesDifferentlyNotSuppressed` | src/server.hpp:124-131 | a frame that parses differently from the last frame seen is not suppressed as a duplicate: it becomes the last frame, and once it parses the buffer is emptied |
| `Session.SetHeaderLine` | src/server.hpp:131-141 | a written `set` header on an empty buffer records its key and expiry time and writes nothing |
| `Session.DataLine` | src/server.hpp:131-156 | a data line right after a command line is stored under the pending key and acknowledged |
| `Session.GetLine` | src/server.hpp:131-150 | a `get` right after a data line writes the stored value or `END\r\n` |
| `Session.SetThenData` | src/server.hpp:114-157 | a `set` header writes nothing and records the key and expiry time, and the data line after it stores the value under that key and is acknowledged, with both new states written out |
| `Session.SetThenDataThenGet` | src/server.hpp:114-157 | `set` header, data line, `get`: the header writes nothing, the data is stored and acknowledged even with `noreply`, and `get` returns it for any expiry time and any later `now` |
| `Session.RepeatedGetSuppressed` | src/server.hpp:121-127 | the same `get` sent twice in a row is answered once; the second copy writes nothing and stays in the buffer |
| `Session.DataWithoutHeader` | src/server.hpp:80-153 | on a new connection a data line with no header is stored under the empty key, expiring at `now`, and acknowledged |
| `Session.BlankLineAborts` | src/server.hpp:119-131 | a chunk of only white space ending in CR LF has no first token, so the handler aborts after recording it as the last frame |
| `Session.Connection.constructor` | src/server.hpp:78-82 | a new connection has an empty buffer, an empty last frame, default pending attributes and an empty store whose maps agree on their keys |
| `Session.Connection.OnChunk` | src/server.hpp:114-157 | the handler, copying the chunk into the buffer one byte at a time, leaves exactly the state and output that `HandleChunk` gives, and keeps the store's two maps on the same keys |

## Left out

- The libuv event loop, TCP bind/listen/accept and the `end_event`/`close_event` handlers are not modelled. They are I/O over a library whose code is not part of this model.
- `main` and its command-line port option are not modelled; they are a wrapper around the server.
- `cmd::print` and all logging are not modelled; they are diagnostics only.
- `system_clock::now()` is not modelled. The handler takes `now` as an integer number of seconds, and the overflow of the 64-bit time point is not modelled.
- The server keeps one `commands` buffer shared by all clients, and `resourceMap` is keyed by handle pointers. The model has one connection, which owns its buffer, so the mixing of bytes between clients is not captured.
- `last_str` is a `string_view` that dangles after the handler returns. The model keeps the frame as a string value.
- What happens after `parse` throws or indexes out of range (an exception escaping the callback, or undefined behaviour) is not modelled. The handler stops with `Aborted` and the state it had reached.
- `std::stoi` reports `out_of_range` for values beyond `long` and beyond `int` alike. The model only checks the `int` range, which gives the same result.
- `write` is asynchronous in the source. The model returns the bytes to be written.
