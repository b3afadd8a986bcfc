/**
 * The command parser of the server (`server::parse`): one received frame is
 * split on white space and classified by its first token as a `set` header,
 * a `get` request, or, for any other first token, a data line whose first
 * token is returned on its own.
 */
module Parser {
  import opened Basics
  import opened Tokens
  import opened Numbers

  datatype CmdType = SET | GET | UNKNOWN

  datatype Reply = NO | YES

  /** A parsed command line, with the flat fields of the server's `cmd` record. */
  datatype Cmd = Cmd(kind: CmdType, key: string, flags: u16, expiryTime: i32, byteCount: u32, needReply: Reply)

  /** What `parse` returns: a command, or the first token of a line that is not one. */
  datatype Parsed = Command(cmd: Cmd) | Raw(text: string)

  /**
   * Why `parse` does not return: a token it reads is missing (the source then
   * indexes past the end of its token vector), or `std::stoi` throws on it.
   */
  datatype ParseError = MissingToken(index: nat) | BadNumber(index: nat, cause: StoiError)

  /** The number of tokens of a `set` header that ends in `noreply`. */
  const MAX_TOKENS: nat := 6

  /** The `std::stoi` conversion of token `i`. */
  function Field(tokens: seq<string>, i: nat): (r: Result<i32, ParseError>)
    ensures i >= |tokens| <==> r == Failure(MissingToken(i))
    ensures i < |tokens| ==> (r.Success? <==> Stoi(tokens[i]).Success?)
    ensures r.Success? ==> i < |tokens| && r.value == Stoi(tokens[i]).value
    // a failed conversion reports this token and the exception `std::stoi` threw
    ensures i < |tokens| && Stoi(tokens[i]).Failure? ==> r == Failure(BadNumber(i, Stoi(tokens[i]).error))
  {
    if i < |tokens| then
      match Stoi(tokens[i])
      case Success(v) => Success(v)
      case Failure(e) => Failure(BadNumber(i, e))
    else
      Failure(MissingToken(i))
  }

  /** `parse` once the line is tokenised. */
  function ParseTokens(tokens: seq<string>): (r: Result<Parsed, ParseError>)
    // an empty line has no first token
    ensures |tokens| == 0 ==> r == Failure(MissingToken(0))
    // any first token other than exactly `set` or `get` comes back alone
    ensures |tokens| > 0 && tokens[0] != "set" && tokens[0] != "get" ==> r == Success(Raw(tokens[0]))
    // a command: its type is that of the first token, its key the second, and
    // it wants no reply exactly when there are six tokens and the last is `noreply`
    ensures r.Success? && r.value.Command? ==>
              && |tokens| >= 2
              && r.value.cmd.key == tokens[1]
              && (r.value.cmd.kind == SET <==> tokens[0] == "set")
              && (r.value.cmd.kind == GET <==> tokens[0] == "get")
              && (r.value.cmd.needReply == NO <==> |tokens| == MAX_TOKENS && tokens[MAX_TOKENS - 1] == "noreply")
    // `get` needs a key; its numeric fields are all zero
    ensures |tokens| > 0 && tokens[0] == "get" ==>
              && (r.Success? <==> |tokens| >= 2)
              && (|tokens| < 2 ==> r == Failure(MissingToken(1)))
              && (r.Success? ==> r.value.Command? && r.value.cmd.flags == 0
                                 && r.value.cmd.expiryTime == 0 && r.value.cmd.byteCount == 0)
    // `set` needs three integer fields; flags are cut to 16 bits and the byte
    // count is reinterpreted as unsigned
    ensures |tokens| > 0 && tokens[0] == "set" ==>
              && (r.Success? <==> |tokens| >= 5 && Stoi(tokens[2]).Success?
                                  && Stoi(tokens[3]).Success? && Stoi(tokens[4]).Success?)
              && (r.Success? ==> && r.value.Command?
                                 && r.value.cmd.flags == Stoi(tokens[2]).value % 0x1_0000
                                 && r.value.cmd.expiryTime == Stoi(tokens[3]).value
                                 && r.value.cmd.byteCount == Stoi(tokens[4]).value % 0x1_0000_0000)
    // the fields are converted in the order 2, 3, 4: the first one that fails is the error
    ensures |tokens| > 0 && tokens[0] == "set" ==>
              && (Field(tokens, 2).Failure? ==> r == Failure(Field(tokens, 2).error))
              && (Field(tokens, 2).Success? && Field(tokens, 3).Failure? ==> r == Failure(Field(tokens, 3).error))
              && (Field(tokens, 2).Success? && Field(tokens, 3).Success? && Field(tokens, 4).Failure? ==>
                    r == Failure(Field(tokens, 4).error))
  {
    if |tokens| == 0 then Failure(MissingToken(0))
    else if tokens[0] != "set" && tokens[0] != "get" then Success(Raw(tokens[0]))
    else
      var kind := if tokens[0] == "set" then SET else GET;
      var needReply := if |tokens| == MAX_TOKENS && tokens[MAX_TOKENS - 1] == "noreply" then NO else YES;
      if kind == GET then
        if |tokens| < 2 then Failure(MissingToken(1))
        else Success(Command(Cmd(GET, tokens[1], 0, 0, 0, needReply)))
      else
        var flags :- Field(tokens, 2);
        var expiryTime :- Field(tokens, 3);
        var byteCount :- Field(tokens, 4);
        Success(Command(Cmd(SET, tokens[1], flags % 0x1_0000, expiryTime, byteCount % 0x1_0000_0000, needReply)))
  }

  /** `server::parse` on one received frame. */
  function Parse(line: string): (r: Result<Parsed, ParseError>)
    ensures r == Failure(MissingToken(0)) <==> AllSpace(line)
    ensures r.Success? && r.value.Raw? ==>
              && IsWord(r.value.text)
              && r.value.text == Tokenize(line)[0]
              && r.value.text != "set" && r.value.text != "get"
    ensures r.Success? && r.value.Command? ==> r.value.cmd.kind != UNKNOWN && IsWord(r.value.cmd.key)
  {
    ParseTokens(Tokenize(line))
  }

  const CRLF: string := "\r\n"

  /** The words of a `set` header as a client writes them. */
  function SetWords(key: string, flags: int, expiryTime: int, byteCount: int, noreply: bool): seq<string> {
    ["set", key, FormatInt(flags), FormatInt(expiryTime), FormatInt(byteCount)]
    + (if noreply then ["noreply"] else [])
  }

  /** A `set` header line as a client writes it. */
  function FormatSet(key: string, flags: int, expiryTime: int, byteCount: int, noreply: bool): string {
    Unwords(SetWords(key, flags, expiryTime, byteCount, noreply)) + CRLF
  }

  /** A `get` request line as a client writes it. */
  function FormatGet(key: string): string {
    Unwords(["get", key]) + CRLF
  }

  /** A data line: its words joined by spaces. */
  function FormatData(words: seq<string>): string {
    Unwords(words) + CRLF
  }

  lemma CrlfIsSpace()
    ensures AllSpace(CRLF)
  {
  }

  lemma TokenizeFormatSet(key: string, flags: int, expiryTime: int, byteCount: int, noreply: bool)
    requires IsWord(key)
    ensures Tokenize(FormatSet(key, flags, expiryTime, byteCount, noreply)) == SetWords(key, flags, expiryTime, byteCount, noreply)
  {
    var ws := SetWords(key, flags, expiryTime, byteCount, noreply);
    assert AllWords(ws);
    CrlfIsSpace();
    TokenizeUnwords(ws, CRLF);
  }

  lemma StoiFormatIntWhole(n: int)
    ensures Stoi(FormatInt(n)) == if INT_MIN <= n <= INT_MAX then Success(n) else Failure(OutOfRange)
  {
    StoiFormatInt(n, []);
    assert FormatInt(n) + [] == FormatInt(n);
  }

  /**
   * A `set` header whose integer fields fit in an `int` parses back to its
   * key and fields, flags cut to 16 bits and the byte count taken modulo 2^32;
   * so a header written from in-range values is recovered exactly. The reply
   * flag is NO exactly when `noreply` was written.
   */
  lemma ParseFormatSet(key: string, flags: int, expiryTime: int, byteCount: int, noreply: bool)
    requires IsWord(key)
    requires INT_MIN <= flags <= INT_MAX && INT_MIN <= expiryTime <= INT_MAX && INT_MIN <= byteCount <= INT_MAX
    ensures Parse(FormatSet(key, flags, expiryTime, byteCount, noreply)) ==
            Success(Command(Cmd(SET, key, flags % 0x1_0000, expiryTime, byteCount % 0x1_0000_0000,
                                if noreply then NO else YES)))
    ensures 0 <= flags < 0x1_0000 && 0 <= byteCount ==>
            Parse(FormatSet(key, flags, expiryTime, byteCount, noreply)) ==
            Success(Command(Cmd(SET, key, flags, expiryTime, byteCount, if noreply then NO else YES)))
  {
    var header := FormatSet(key, flags, expiryTime, byteCount, noreply);
    TokenizeFormatSet(key, flags, expiryTime, byteCount, noreply);
    ParseSetWords(key, flags, expiryTime, byteCount, noreply);
    assert Parse(header) == ParseTokens(SetWords(key, flags, expiryTime, byteCount, noreply));
    if 0 <= flags < 0x1_0000 && 0 <= byteCount {
      CastKeepsSmall(flags, 0x1_0000);
      CastKeepsSmall(byteCount, 0x1_0000_0000);
    }
  }

  /**
   * Proof helper: the shape of `ParseFormatSet`'s result alone, so that callers
   * do not carry the casts' arithmetic into their own proofs.
   */
  lemma ParseFormatSetIsCommand(key: string, flags: int, expiryTime: int, byteCount: int, noreply: bool)
    requires IsWord(key)
    requires INT_MIN <= flags <= INT_MAX && INT_MIN <= expiryTime <= INT_MAX && INT_MIN <= byteCount <= INT_MAX
    ensures Parse(FormatSet(key, flags, expiryTime, byteCount, noreply)).Success?
    ensures Parse(FormatSet(key, flags, expiryTime, byteCount, noreply)).value.Command?
  {
    ParseFormatSet(key, flags, expiryTime, byteCount, noreply);
  }

  lemma ParseSetWords(key: string, flags: int, expiryTime: int, byteCount: int, noreply: bool)
    requires INT_MIN <= flags <= INT_MAX && INT_MIN <= expiryTime <= INT_MAX && INT_MIN <= byteCount <= INT_MAX
    ensures ParseTokens(SetWords(key, flags, expiryTime, byteCount, noreply)) ==
            Success(Command(Cmd(SET, key, flags % 0x1_0000, expiryTime, byteCount % 0x1_0000_0000,
                                if noreply then NO else YES)))
  {
    StoiFormatIntWhole(flags);
    StoiFormatIntWhole(expiryTime);
    StoiFormatIntWhole(byteCount);
    var extra: seq<string> := if noreply then ["noreply"] else [];
    ParseSetFields(key, FormatInt(flags), FormatInt(expiryTime), FormatInt(byteCount), extra,
                   flags, expiryTime, byteCount);
  }

  /** A `set` line whose three fields convert becomes a `set` command built from them. */
  lemma ParseSetFields(key: string, f: string, e: string, b: string, extra: seq<string>,
                       flags: i32, expiryTime: i32, byteCount: i32)
    requires Stoi(f) == Success(flags) && Stoi(e) == Success(expiryTime) && Stoi(b) == Success(byteCount)
    ensures ParseTokens(["set", key, f, e, b] + extra) ==
            Success(Command(Cmd(SET, key, flags % 0x1_0000, expiryTime, byteCount % 0x1_0000_0000,
                                if extra == ["noreply"] then NO else YES)))
  {
    var tokens := ["set", key, f, e, b] + extra;
    assert tokens[0] == "set" && tokens[1] == key && tokens[2] == f && tokens[3] == e && tokens[4] == b;
    assert |tokens| == MAX_TOKENS && tokens[MAX_TOKENS - 1] == "noreply" <==> extra == ["noreply"] by {
      if |extra| == 1 {
        assert tokens[5] == extra[0] && extra == [extra[0]];
      }
    }
  }

  /**
   * A header field that does not fit in an `int` makes `std::stoi` throw
   * `out_of_range`; the fields are read in order, so the first such field is reported.
   */
  lemma ParseFormatSetOverflow(key: string, flags: int, expiryTime: int, byteCount: int, noreply: bool)
    requires IsWord(key)
    ensures !(INT_MIN <= flags <= INT_MAX) ==>
              Parse(FormatSet(key, flags, expiryTime, byteCount, noreply)) == Failure(BadNumber(2, OutOfRange))
    ensures INT_MIN <= flags <= INT_MAX && !(INT_MIN <= expiryTime <= INT_MAX) ==>
              Parse(FormatSet(key, flags, expiryTime, byteCount, noreply)) == Failure(BadNumber(3, OutOfRange))
    ensures INT_MIN <= flags <= INT_MAX && INT_MIN <= expiryTime <= INT_MAX && !(INT_MIN <= byteCount <= INT_MAX) ==>
              Parse(FormatSet(key, flags, expiryTime, byteCount, noreply)) == Failure(BadNumber(4, OutOfRange))
  {
    TokenizeFormatSet(key, flags, expiryTime, byteCount, noreply);
    ParseSetWordsOverflow(key, flags, expiryTime, byteCount, noreply);
  }

  lemma ParseSetWordsOverflow(key: string, flags: int, expiryTime: int, byteCount: int, noreply: bool)
    ensures var r := ParseTokens(SetWords(key, flags, expiryTime, byteCount, noreply));
            && (!(INT_MIN <= flags <= INT_MAX) ==> r == Failure(BadNumber(2, OutOfRange)))
            && (INT_MIN <= flags <= INT_MAX && !(INT_MIN <= expiryTime <= INT_MAX) ==>
                  r == Failure(BadNumber(3, OutOfRange)))
            && (INT_MIN <= flags <= INT_MAX && INT_MIN <= expiryTime <= INT_MAX && !(INT_MIN <= byteCount <= INT_MAX) ==>
                  r == Failure(BadNumber(4, OutOfRange)))
  {
    StoiFormatIntWhole(flags);
    StoiFormatIntWhole(expiryTime);
    StoiFormatIntWhole(byteCount);
    var extra: seq<string> := if noreply then ["noreply"] else [];
    ParseSetFieldsOutOfRange(key, FormatInt(flags), FormatInt(expiryTime), FormatInt(byteCount), extra);
  }

  /** The first of the three fields of a `set` line that overflows is the one reported. */
  lemma ParseSetFieldsOutOfRange(key: string, f: string, e: string, b: string, extra: seq<string>)
    ensures Stoi(f) == Failure(OutOfRange) ==>
              ParseTokens(["set", key, f, e, b] + extra) == Failure(BadNumber(2, OutOfRange))
    ensures Stoi(f).Success? && Stoi(e) == Failure(OutOfRange) ==>
              ParseTokens(["set", key, f, e, b] + extra) == Failure(BadNumber(3, OutOfRange))
    ensures Stoi(f).Success? && Stoi(e).Success? && Stoi(b) == Failure(OutOfRange) ==>
              ParseTokens(["set", key, f, e, b] + extra) == Failure(BadNumber(4, OutOfRange))
  {
    var tokens := ["set", key, f, e, b] + extra;
    assert tokens[0] == "set" && tokens[2] == f && tokens[3] == e && tokens[4] == b;
  }

  /** A `set` header cut short after its flags indexes past the end of the tokens. */
  lemma ParseSetWithoutExpiry(key: string, flags: int)
    requires IsWord(key)
    requires INT_MIN <= flags <= INT_MAX
    ensures Parse(Unwords(["set", key, FormatInt(flags)]) + CRLF) == Failure(MissingToken(3))
  {
    CrlfIsSpace();
    TokenizeUnwords(["set", key, FormatInt(flags)], CRLF);
    StoiFormatIntWhole(flags);
  }

  /** A `get` request parses to its key with every numeric field zero. */
  lemma ParseFormatGet(key: string)
    requires IsWord(key)
    ensures Parse(FormatGet(key)) == Success(Command(Cmd(GET, key, 0, 0, 0, YES)))
  {
    CrlfIsSpace();
    TokenizeUnwords(["get", key], CRLF);
  }

  /** `get` without a key indexes past the end of the tokens. */
  lemma ParseGetWithoutKey()
    ensures Parse("get" + CRLF) == Failure(MissingToken(1))
  {
    CrlfIsSpace();
    TokenizeUnwords(["get"], CRLF);
  }

  /**
   * A line whose first word is not exactly `set` or `get` (so `SET` and `Get`
   * too) is a data line, and only that first word is returned.
   */
  lemma ParseFormatData(words: seq<string>)
    requires |words| > 0 && AllWords(words)
    requires words[0] != "set" && words[0] != "get"
    ensures Parse(FormatData(words)) == Success(Raw(words[0]))
  {
    CrlfIsSpace();
    TokenizeUnwords(words, CRLF);
  }
}
