/**
 * What the server does with one chunk of bytes received on a connection (the
 * body of its `data_event` handler), for a single connection: the byte buffer
 * `commands`, the last frame seen `lastStr`, the pending `set` attributes
 * `storageVal` and the connection's own `store`.
 */
module Session {
  import opened Basics
  import opened Tokens
  import opened Numbers
  import opened Parser
  import opened Storage

  const STORED: string := "STORED\r\n"
  const END: string := "END\r\n"

  /** What the handler does towards the client. */
  datatype Output =
    | Silent                         // nothing is written
    | Write(bytes: string)           // these bytes are written
    | Aborted(error: ParseError)     // parsing a frame threw or indexed out of range

  /** The connection's state, as values. */
  datatype State = State(commands: string, lastStr: string, storageVal: KeyExp, store: Tables)

  /** A freshly accepted connection. */
  function Initial(): (s: State)
    // nothing is buffered or stored, and the two maps agree on their keys
    ensures s.commands == [] && Aligned(s.store)
    ensures forall key :: Find(s.store, key) == None
    // so the first frame of a connection is never taken for a duplicate
    ensures forall chunk :: Accepted(chunk) ==> s.commands + chunk != s.lastStr
  {
    State([], [], KeyExp([], 0), Tables(map[], map[]))
  }

  /** A chunk the handler looks at: longer than two bytes and ending in CR LF. */
  predicate Accepted(chunk: string): (b: bool)
    ensures b <==> |chunk| > 2 && chunk[|chunk| - 2..] == CRLF
  {
    |chunk| > 2 && chunk[|chunk| - 2] == '\r' && chunk[|chunk| - 1] == '\n'
  }

  /** The handler on one chunk at time `now`: the new state and what is written. */
  function HandleChunk(s: State, chunk: string, now: int): (r: (State, Output))
    // a chunk the handler does not look at changes nothing and writes nothing
    ensures !Accepted(chunk) ==> r == (s, Silent)
    // any other chunk leaves its frame as the last one seen
    ensures Accepted(chunk) ==> r.0.lastStr == s.commands + chunk
    // a duplicate frame stays in the buffer
    ensures Accepted(chunk) && s.commands + chunk == s.lastStr ==> r.0.commands == s.commands + chunk
    // the store changes only by storing a data line, which is acknowledged
    ensures r.0.store == s.store || r.1 == Write(STORED)
    // the pending attributes change only on a `set` header, which writes nothing
    ensures r.0.storageVal == s.storageVal || r.1 == Silent
  {
    if !Accepted(chunk) then (s, Silent)
    else
      var frame := s.commands + chunk;
      if frame == s.lastStr then (s.(commands := frame), Silent)
      else
        var seen := s.(commands := frame, lastStr := frame);
        match Parse(frame)
        case Failure(e) => (seen, Aborted(e))
        case Success(Command(c)) =>
          var done := seen.(commands := []);
          if c.kind == SET then (done.(storageVal := KeyExp(c.key, c.expiryTime)), Silent)
          else if c.kind == GET then
            (done, match Find(s.store, c.key) case Some(v) => Write(v) case None => Write(END))
          else (done, Silent)
        case Success(Raw(v)) =>
          (seen.(commands := [], store := Put(s.store, s.storageVal, v, now)), Write(STORED))
  }

  /** A chunk of at most two bytes, or one not ending in CR LF, changes nothing and writes nothing. */
  lemma ChunkIgnored(s: State, chunk: string, now: int)
    requires !Accepted(chunk)
    ensures HandleChunk(s, chunk, now) == (s, Silent)
  {
  }

  /**
   * A frame equal to the last one seen writes nothing and leaves the store and
   * the pending attributes alone; the buffer keeps the bytes, since it is not
   * cleared on this path.
   */
  lemma DuplicateSuppressed(s: State, chunk: string, now: int)
    requires Accepted(chunk) && s.commands + chunk == s.lastStr
    ensures HandleChunk(s, chunk, now) == (s.(commands := s.commands + chunk), Silent)
  {
  }

  /**
   * Any other frame becomes the last frame seen; once it has been parsed the
   * buffer is empty, and a frame that cannot be parsed aborts the handler with
   * the buffer still full and nothing else changed.
   */
  lemma NewFrameRecorded(s: State, chunk: string, now: int)
    requires Accepted(chunk) && s.commands + chunk != s.lastStr
    ensures var r := HandleChunk(s, chunk, now);
            && r.0.lastStr == s.commands + chunk
            && (Parse(s.commands + chunk).Success? ==> r.0.commands == [])
            && (Parse(s.commands + chunk).Failure? ==>
                  r == (s.(commands := s.commands + chunk, lastStr := s.commands + chunk),
                        Aborted(Parse(s.commands + chunk).error)))
  {
  }

  /** A `set` header records the key and expiry time as pending and writes nothing. */
  lemma SetHeaderStep(s: State, chunk: string, now: int, c: Cmd)
    requires Accepted(chunk) && s.commands + chunk != s.lastStr
    requires Parse(s.commands + chunk) == Success(Command(c)) && c.kind == SET
    ensures HandleChunk(s, chunk, now) ==
            (s.(commands := [], lastStr := s.commands + chunk, storageVal := KeyExp(c.key, c.expiryTime)), Silent)
  {
  }

  /**
   * A `get` request writes exactly the stored value bytes on a hit and exactly
   * `END\r\n` on a miss, whatever the key's expiry time and `now`; the store
   * and the pending attributes are unchanged.
   */
  lemma GetStep(s: State, chunk: string, now: int, c: Cmd)
    requires Accepted(chunk) && s.commands + chunk != s.lastStr
    requires Parse(s.commands + chunk) == Success(Command(c)) && c.kind == GET
    ensures var r := HandleChunk(s, chunk, now);
            && r.0 == s.(commands := [], lastStr := s.commands + chunk)
            && (c.key in s.store.keyValue ==> r.1 == Write(s.store.keyValue[c.key]))
            && (c.key !in s.store.keyValue ==> r.1 == Write(END))
  {
  }

  /**
   * A data line stores its first word under the pending key, with the pending
   * expiry time counted from `now`, and writes `STORED\r\n`; the pending
   * attributes stay as they were.
   */
  lemma DataStep(s: State, chunk: string, now: int, v: string)
    requires Accepted(chunk) && s.commands + chunk != s.lastStr
    requires Parse(s.commands + chunk) == Success(Raw(v))
    ensures HandleChunk(s, chunk, now) ==
            (s.(commands := [], lastStr := s.commands + chunk, store := Put(s.store, s.storageVal, v, now)),
             Write(STORED))
  {
  }

  /** The handler keeps every stored key paired with an expiry time, and never forgets a key. */
  lemma HandleChunkKeepsAligned(s: State, chunk: string, now: int)
    requires Aligned(s.store)
    ensures Aligned(HandleChunk(s, chunk, now).0.store)
    ensures s.store.keyValue.Keys <= HandleChunk(s, chunk, now).0.store.keyValue.Keys
  {
  }

  /** A line the client wrote as words and CR LF is a chunk the handler looks at. */
  lemma LineAccepted(words: seq<string>)
    requires |words| > 0 && AllWords(words)
    ensures Accepted(Unwords(words) + CRLF)
  {
    assert IsWord(words[0]);
    assert |Unwords(words)| >= |words[0]|;
  }

  /**
   * `NewFrameRecorded` with its premise read off the parser: a frame that parses
   * differently from the last frame seen cannot equal it, so it is not taken for
   * a duplicate; it becomes the last frame, and once parsed the buffer is emptied.
   */
  lemma ParsesDifferentlyNotSuppressed(s: State, chunk: string, now: int)
    requires Accepted(chunk) && Parse(s.commands + chunk) != Parse(s.lastStr)
    ensures HandleChunk(s, chunk, now).0.lastStr == s.commands + chunk
    ensures Parse(s.commands + chunk).Success? ==> HandleChunk(s, chunk, now).0.commands == []
  {
    assert s.commands + chunk != s.lastStr;
    NewFrameRecorded(s, chunk, now);
  }

  /** A written `set` header, on a connection whose buffer is empty, records its key and expiry time. */
  lemma SetHeaderLine(s: State, key: string, flags: int, expiryTime: int, byteCount: int, noreply: bool, now: int)
    requires s.commands == [] && s.lastStr != FormatSet(key, flags, expiryTime, byteCount, noreply)
    requires IsWord(key)
    requires INT_MIN <= flags <= INT_MAX && INT_MIN <= expiryTime <= INT_MAX && INT_MIN <= byteCount <= INT_MAX
    ensures HandleChunk(s, FormatSet(key, flags, expiryTime, byteCount, noreply), now) ==
            (s.(lastStr := FormatSet(key, flags, expiryTime, byteCount, noreply), storageVal := KeyExp(key, expiryTime)),
             Silent)
  {
    var header := FormatSet(key, flags, expiryTime, byteCount, noreply);
    var ws := SetWords(key, flags, expiryTime, byteCount, noreply);
    ParseFormatSet(key, flags, expiryTime, byteCount, noreply);
    TokenizeFormatSet(key, flags, expiryTime, byteCount, noreply);
    assert AllWords(Tokenize(header)) && Tokenize(header) == ws && |ws| > 0;
    LineAccepted(ws);
    assert [] + header == header;
    SetHeaderStep(s, header, now,
                  Cmd(SET, key, flags % 0x1_0000, expiryTime, byteCount % 0x1_0000_0000, if noreply then NO else YES));
  }

  /** A written data line, right after a command line, is stored under the pending key and acknowledged. */
  lemma DataLine(s: State, value: string, now: int)
    requires s.commands == [] && Parse(s.lastStr).Success? && Parse(s.lastStr).value.Command?
    requires IsWord(value) && value != "set" && value != "get"
    ensures HandleChunk(s, FormatData([value]), now) ==
            (s.(lastStr := FormatData([value]), store := Put(s.store, s.storageVal, value, now)), Write(STORED))
  {
    var data := FormatData([value]);
    ParseFormatData([value]);
    LineAccepted([value]);
    assert [] + data == data;
    ParsesDifferentlyNotSuppressed(s, data, now);
    DataStep(s, data, now, value);
  }

  /** A written `get` request, right after a data line, writes the stored value or `END\r\n`. */
  lemma GetLine(s: State, key: string, now: int)
    requires s.commands == [] && Parse(s.lastStr).Success? && Parse(s.lastStr).value.Raw?
    requires IsWord(key)
    ensures HandleChunk(s, FormatGet(key), now) ==
            (s.(lastStr := FormatGet(key)),
             Write(match Find(s.store, key) case Some(v) => v case None => END))
  {
    var get := FormatGet(key);
    ParseFormatGet(key);
    LineAccepted(["get", key]);
    assert [] + get == get;
    ParsesDifferentlyNotSuppressed(s, get, now);
    GetStep(s, get, now, Cmd(GET, key, 0, 0, 0, YES));
  }

  /**
   * A `set` header, its data line and a `get` of the same key, on a connection
   * whose buffer is empty: the header writes nothing, the data line is stored
   * and acknowledged with `STORED\r\n` even when `noreply` was given, and the
   * `get` writes the value back even when its expiry time has passed.
   */
  lemma {:induction false} SetThenDataThenGet(s: State, key: string, flags: int, expiryTime: int, byteCount: int,
                                              noreply: bool, value: string, now1: int, now2: int, now3: int)
    requires s.commands == [] && s.lastStr != FormatSet(key, flags, expiryTime, byteCount, noreply)
    requires IsWord(key) && IsWord(value) && value != "set" && value != "get"
    requires INT_MIN <= flags <= INT_MAX && INT_MIN <= expiryTime <= INT_MAX && INT_MIN <= byteCount <= INT_MAX
    ensures var r1 := HandleChunk(s, FormatSet(key, flags, expiryTime, byteCount, noreply), now1);
            var r2 := HandleChunk(r1.0, FormatData([value]), now2);
            var r3 := HandleChunk(r2.0, FormatGet(key), now3);
            && r1.1 == Silent && r1.0.storageVal == KeyExp(key, expiryTime)
            && r2.1 == Write(STORED) && r2.0.store == Put(s.store, KeyExp(key, expiryTime), value, now2)
            && r3.1 == Write(value) && r3.0.store == r2.0.store && r3.0.commands == []
  {
    var header := FormatSet(key, flags, expiryTime, byteCount, noreply);
    var data := FormatData([value]);
    SetThenData(s, key, flags, expiryTime, byteCount, noreply, value, now1, now2);
    var s2 := s.(lastStr := data, storageVal := KeyExp(key, expiryTime),
                 store := Put(s.store, KeyExp(key, expiryTime), value, now2));
    assert HandleChunk(HandleChunk(s, header, now1).0, data, now2).0 == s2;
    ParseFormatData([value]);
    GetLine(s2, key, now3);
    assert Find(s2.store, key) == Some(value);
  }

  /** The first two steps of the scenario above, with the states they leave written out. */
  lemma SetThenData(s: State, key: string, flags: int, expiryTime: int, byteCount: int,
                    noreply: bool, value: string, now1: int, now2: int)
    requires s.commands == [] && s.lastStr != FormatSet(key, flags, expiryTime, byteCount, noreply)
    requires IsWord(key) && IsWord(value) && value != "set" && value != "get"
    requires INT_MIN <= flags <= INT_MAX && INT_MIN <= expiryTime <= INT_MAX && INT_MIN <= byteCount <= INT_MAX
    ensures var s1 := s.(lastStr := FormatSet(key, flags, expiryTime, byteCount, noreply),
                         storageVal := KeyExp(key, expiryTime));
            && HandleChunk(s, FormatSet(key, flags, expiryTime, byteCount, noreply), now1) == (s1, Silent)
            && HandleChunk(s1, FormatData([value]), now2) ==
               (s1.(lastStr := FormatData([value]), store := Put(s.store, KeyExp(key, expiryTime), value, now2)),
                Write(STORED))
  {
    var header := FormatSet(key, flags, expiryTime, byteCount, noreply);
    SetHeaderLine(s, key, flags, expiryTime, byteCount, noreply, now1);
    var s1 := s.(lastStr := header, storageVal := KeyExp(key, expiryTime));
    ParseFormatSetIsCommand(key, flags, expiryTime, byteCount, noreply);
    DataLine(s1, value, now2);
  }

  /**
   * The same `get` request sent twice in a row is answered once: the second
   * copy is taken for a duplicate, writes nothing, and stays in the buffer.
   */
  lemma {:induction false} RepeatedGetSuppressed(s: State, key: string, now1: int, now2: int)
    requires s.commands == [] && s.lastStr != FormatGet(key)
    requires IsWord(key)
    ensures var r1 := HandleChunk(s, FormatGet(key), now1);
            var r2 := HandleChunk(r1.0, FormatGet(key), now2);
            && r1.1 == Write(match Find(s.store, key) case Some(v) => v case None => END)
            && r2.1 == Silent && r2.0.commands == FormatGet(key) && r2.0.store == s.store
  {
    var get := FormatGet(key);
    ParseFormatGet(key);
    LineAccepted(["get", key]);
    assert [] + get == get;
    GetStep(s, get, now1, Cmd(GET, key, 0, 0, 0, YES));
    var s1 := HandleChunk(s, get, now1).0;
    DuplicateSuppressed(s1, get, now2);
  }

  /**
   * On a new connection a data line with no header before it is stored under
   * the empty key, with expiry time `now`, and acknowledged.
   */
  lemma {:induction false} DataWithoutHeader(words: seq<string>, now: int)
    requires |words| > 0 && AllWords(words) && words[0] != "set" && words[0] != "get"
    ensures HandleChunk(Initial(), FormatData(words), now) ==
            (Initial().(lastStr := FormatData(words),
                        store := Tables(map[[] := words[0]], map[[] := now])),
             Write(STORED))
  {
    var data := FormatData(words);
    ParseFormatData(words);
    LineAccepted(words);
    assert [] + data == data;
    DataStep(Initial(), data, now, words[0]);
  }

  /** A chunk made only of white space and ending in CR LF has no first token: the handler aborts. */
  lemma {:induction false} BlankLineAborts(s: State, chunk: string, now: int)
    requires s.commands == [] && s.lastStr != chunk
    requires Accepted(chunk) && AllSpace(chunk)
    ensures HandleChunk(s, chunk, now) == (s.(commands := chunk, lastStr := chunk), Aborted(MissingToken(0)))
  {
    assert [] + chunk == chunk;
  }

  /**
   * `resource_handle_t` together with the byte buffer `commands`, which the
   * handler fills one byte at a time and clears once a frame is handled.
   */
  class Connection {
    var commands: string
    var lastStr: string
    var storageVal: KeyExp
    const store: Store

    ghost predicate Valid()
      reads this, store
    {
      store.Valid()
    }

    function Current(): State
      reads this, store
    {
      State(commands, lastStr, storageVal, store.Contents())
    }

    constructor ()
      ensures Valid()
      ensures Current() == Initial()
      ensures fresh(store)
    {
      commands := [];
      lastStr := [];
      storageVal := KeyExp([], 0);
      store := new Store();
    }

    /** The `data_event` handler for one chunk received at time `now`. */
    method OnChunk(chunk: string, now: int) returns (out: Output)
      requires Valid()
      modifies this, store
      ensures Valid()
      ensures (Current(), out) == HandleChunk(old(Current()), chunk, now)
    {
      var len := |chunk|;
      ghost var before := Current();
      if !(len > 2 && chunk[len - 1] == '\n' && chunk[len - 2] == '\r') {
        assert !Accepted(chunk) by {
          if len > 2 {
            assert chunk[len - 2..][0] == chunk[len - 2] && chunk[len - 2..][1] == chunk[len - 1];
          }
        }
        return Silent;
      }
      assert chunk[len - 2..] == CRLF;
      var i := 0;
      while i < len
        modifies this
        invariant 0 <= i <= len
        invariant commands == old(commands) + chunk[..i]
        invariant lastStr == old(lastStr) && storageVal == old(storageVal)
      {
        commands := commands + [chunk[i]];
        i := i + 1;
      }
      assert chunk[..len] == chunk;
      var frame := commands;
      assert frame == before.commands + chunk;
      if frame == lastStr {
        return Silent;
      }
      lastStr := frame;
      var parsed := Parse(frame);
      match parsed {
        case Failure(e) =>
          return Aborted(e);
        case Success(Command(c)) =>
          if c.kind == SET {
            storageVal := KeyExp(c.key, c.expiryTime);
            out := Silent;
          } else if c.kind == GET {
            var found := store.Get(c.key);
            match found {
              case Some(v) => out := Write(v);
              case None => out := Write(END);
            }
          } else {
            out := Silent;
          }
        case Success(Raw(v)) =>
          store.Add(storageVal, v, now);
          out := Write(STORED);
      }
      commands := [];
    }
  }
}
