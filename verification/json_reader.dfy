/**
  `JsonReaderServiceImpl.loadJsonFile`: a streaming scan over the tokens of
  one uploaded file. Every object that starts at scan level is handed to the
  object mapper, which consumes it up to its closing token and yields one
  cargo; any tokenizer or mapping error fails the whole file.

  The tokenizer is abstracted as the sequence of tokens it yields, with
  `Invalid` standing at the point where it would raise; the object mapper is
  an abstract decoder from an object's tokens to a cargo or a failure.
 */
module JsonReader {
  import opened Wrappers
  import opened Entities

  datatype Token =
    | StartObject
    | EndObject
    | StartArray
    | EndArray
    | FieldName(name: string)
    | Scalar(text: string)
    | Invalid

  /** The object mapper: the tokens of one object, StartObject to EndObject, to a cargo or a failure. */
  type Decoder = seq<Token> -> Option<Cargo>

  datatype JsonFile = JsonFile(name: string, tokens: seq<Token>)

  function InvalidFileMessage(name: string): string {
    "Error: The specified file " + name + " is not a valid JSON file."
  }

  function Delta(t: Token): int {
    match t
    case StartObject => 1
    case StartArray => 1
    case EndObject => -1
    case EndArray => -1
    case _ => 0
  }

  /** Nesting depth after the tokens `ts`: containers opened minus containers closed. */
  function Depth(ts: seq<Token>): int {
    if |ts| == 0 then 0 else Depth(ts[..|ts| - 1]) + Delta(ts[|ts| - 1])
  }

  /**
    How far the object mapper reads: scanning from `i` with `depth` containers
    open, the index just past the EndObject that closes the outermost one.
    None when the stream ends first, a token is invalid, or the outermost
    object is closed by an EndArray.
   */
  function ObjectEnd(ts: seq<Token>, i: nat, depth: nat): (r: Option<nat>)
    requires i <= |ts| && depth >= 1
    ensures r.Some? ==> i < r.value <= |ts| && ts[r.value - 1] == EndObject
    ensures r.Some? ==> forall k :: i <= k < r.value ==> !ts[k].Invalid?
    decreases |ts| - i
  {
    if i == |ts| then None
    else match ts[i]
      case Invalid => None
      case StartObject => ObjectEnd(ts, i + 1, depth + 1)
      case StartArray => ObjectEnd(ts, i + 1, depth + 1)
      case EndObject => if depth == 1 then Some(i + 1) else ObjectEnd(ts, i + 1, depth - 1)
      case EndArray => if depth == 1 then None else ObjectEnd(ts, i + 1, depth - 1)
      case _ => ObjectEnd(ts, i + 1, depth)
  }

  /**
    The scan from position `i`: a StartObject is decoded as one cargo and the
    scan resumes after the object, any other valid token is skipped, and any
    failure makes the whole result None. Each cargo took at least the two
    tokens of its object; `ScanRejectsInvalid` shows that a tokenizer error
    anywhere fails the scan.
   */
  function Scan(ts: seq<Token>, i: nat, decode: Decoder): (r: Option<seq<Cargo>>)
    requires i <= |ts|
    ensures r.Some? ==> 2 * |r.value| <= |ts| - i
    decreases |ts| - i
  {
    if i == |ts| then Some([])
    else if ts[i].Invalid? then None
    else if ts[i].StartObject? then
      match ObjectEnd(ts, i + 1, 1)
      case None => None
      case Some(j) =>
        match decode(ts[i..j])
        case None => None
        case Some(c) =>
          match Scan(ts, j, decode)
          case None => None
          case Some(rest) => Some([c] + rest)
    else Scan(ts, i + 1, decode)
  }

  /** A tokenizer error anywhere from `i` on, inside an object or between objects, fails the scan. */
  lemma {:induction false} ScanRejectsInvalid(ts: seq<Token>, i: nat, decode: Decoder)
    requires i <= |ts|
    ensures Scan(ts, i, decode).Some? ==> forall k :: i <= k < |ts| ==> !ts[k].Invalid?
    decreases |ts| - i
  {
    if i < |ts| && !ts[i].Invalid? {
      if ts[i].StartObject? {
        match ObjectEnd(ts, i + 1, 1)
        case None =>
        case Some(j) => ScanRejectsInvalid(ts, j, decode);
      } else {
        ScanRejectsInvalid(ts, i + 1, decode);
      }
    }
  }

  function Prefixed(done: seq<Cargo>, r: Option<seq<Cargo>>): Option<seq<Cargo>> {
    match r
    case None => None
    case Some(rest) => Some(done + rest)
  }

  /**
    `loadJsonFile`: the token loop with its growing cargo list. The list is
    returned only when the whole stream was read; every error yields the
    file's "not a valid JSON file" failure and no list at all.
   */
  method LoadJsonFile(file: JsonFile, decode: Decoder) returns (r: Result<seq<Cargo>, string>)
    ensures r.Success? <==> Scan(file.tokens, 0, decode).Some?
    ensures r.Success? ==> r.value == Scan(file.tokens, 0, decode).value
    ensures r.Failure? ==> r.error == InvalidFileMessage(file.name)
  {
    var ts := file.tokens;
    var cargos: seq<Cargo> := [];
    var i := 0;
    match Scan(ts, 0, decode) {
      case None =>
      case Some(all) => assert [] + all == all;
    }
    while i < |ts|
      invariant i <= |ts|
      invariant Scan(ts, 0, decode) == Prefixed(cargos, Scan(ts, i, decode))
      decreases |ts| - i
    {
      if ts[i].Invalid? {
        assert Scan(ts, i, decode) == None;
        return Failure(InvalidFileMessage(file.name));
      } else if ts[i].StartObject? {
        var end := ObjectEnd(ts, i + 1, 1);
        if end.None? {
          assert Scan(ts, i, decode) == None;
          return Failure(InvalidFileMessage(file.name));
        }
        var cargo := decode(ts[i..end.value]);
        if cargo.None? {
          assert Scan(ts, i, decode) == None;
          return Failure(InvalidFileMessage(file.name));
        }
        match Scan(ts, end.value, decode) {
          case None =>
          case Some(rest) => assert (cargos + [cargo.value]) + rest == cargos + ([cargo.value] + rest);
        }
        cargos := cargos + [cargo.value];
        i := end.value;
      } else {
        assert Scan(ts, i, decode) == Scan(ts, i + 1, decode);
        i := i + 1;
      }
    }
    assert cargos + [] == cargos;
    return Success(cargos);
  }

  /** One complete object as the tokenizer yields it, with no tokenizer error inside. */
  ghost predicate WellFormedObject(o: seq<Token>) {
    && |o| >= 2
    && o[0] == StartObject
    && o[|o| - 1] == EndObject
    && Depth(o) == 0
    && (forall k :: 1 <= k < |o| ==> Depth(o[..k]) >= 1)
    && (forall k :: 0 <= k < |o| ==> !o[k].Invalid?)
  }

  function Concat(objs: seq<seq<Token>>): seq<Token> {
    if |objs| == 0 then [] else objs[0] + Concat(objs[1..])
  }

  /** The tokens of a JSON array whose elements are the given objects. */
  function ArrayOf(objs: seq<seq<Token>>): seq<Token> {
    [StartArray] + Concat(objs) + [EndArray]
  }

  /** All-or-nothing decoding of a list of objects, in order. */
  function DecodeAll(objs: seq<seq<Token>>, decode: Decoder): (r: Option<seq<Cargo>>)
    ensures r.Some? <==> forall k :: 0 <= k < |objs| ==> decode(objs[k]).Some?
    ensures r.Some? ==> |r.value| == |objs|
    ensures r.Some? ==> forall k :: 0 <= k < |objs| ==> decode(objs[k]) == Some(r.value[k])
  {
    if |objs| == 0 then Some([])
    else match decode(objs[0])
      case None => None
      case Some(c) =>
        match DecodeAll(objs[1..], decode)
        case None =>
          assert exists k :: 1 <= k < |objs| && decode(objs[k]).None? by {
            var k' :| 0 <= k' < |objs| - 1 && decode(objs[1..][k']).None?;
            assert objs[1..][k'] == objs[k' + 1];
          }
          None
        case Some(rest) =>
          assert forall k :: 1 <= k < |objs| ==> objs[k] == objs[1..][k - 1];
          Some([c] + rest)
  }

  /** The mapper, started on a well-formed object, reads exactly to that object's last token. */
  lemma {:induction false} ObjectEndOfWellFormed(pre: seq<Token>, o: seq<Token>, post: seq<Token>, k: nat)
    requires WellFormedObject(o)
    requires 1 <= k < |o|
    ensures Depth(o[..k]) >= 1
    ensures ObjectEnd(pre + o + post, |pre| + k, Depth(o[..k]) as nat) == Some(|pre| + |o|)
    decreases |o| - k
  {
    var ts := pre + o + post;
    assert ts[|pre| + k] == o[k];
    assert o[..k + 1][..k] == o[..k];
    assert Depth(o[..k + 1]) == Depth(o[..k]) + Delta(o[k]);
    if k == |o| - 1 {
      assert o[..k + 1] == o;
    } else {
      ObjectEndOfWellFormed(pre, o, post, k + 1);
    }
  }

  lemma {:induction false} ScanConcat(pre: seq<Token>, objs: seq<seq<Token>>, decode: Decoder)
    requires forall k :: 0 <= k < |objs| ==> WellFormedObject(objs[k])
    ensures Scan(pre + Concat(objs) + [EndArray], |pre|, decode) == DecodeAll(objs, decode)
    decreases |objs|
  {
    var ts := pre + Concat(objs) + [EndArray];
    if |objs| == 0 {
      assert ts[|pre|] == EndArray;
      assert |pre| + 1 == |ts|;
    } else {
      var o := objs[0];
      var post := Concat(objs[1..]) + [EndArray];
      assert ts == pre + o + post;
      assert ts[|pre|] == o[0] == StartObject;
      assert o[..1] == [StartObject];
      assert Depth(o[..1]) == Depth([]) + Delta(StartObject) == 1 by {
        assert o[..1][..0] == [];
      }
      ObjectEndOfWellFormed(pre, o, post, 1);
      assert ts[|pre|..|pre| + |o|] == o;
      assert pre + o + Concat(objs[1..]) + [EndArray] == ts;
      ScanConcat(pre + o, objs[1..], decode);
    }
  }

  /**
    A well-formed array of objects yields one cargo per object, in array
    order, when every object decodes, and no list at all otherwise.
   */
  lemma {:induction false} ArrayOfObjectsRoundTrip(objs: seq<seq<Token>>, decode: Decoder)
    requires forall k :: 0 <= k < |objs| ==> WellFormedObject(objs[k])
    ensures Scan(ArrayOf(objs), 0, decode) == DecodeAll(objs, decode)
  {
    var ts := ArrayOf(objs);
    assert ts[0] == StartArray;
    ScanConcat([StartArray], objs, decode);
  }

  /** Valid tokens at scan level other than StartObject contribute nothing. */
  lemma {:induction false} SkipPlainTokens(ts: seq<Token>, i: nat, j: nat, decode: Decoder)
    requires i <= j <= |ts|
    requires forall k :: i <= k < j ==> !ts[k].StartObject? && !ts[k].Invalid?
    ensures Scan(ts, i, decode) == Scan(ts, j, decode)
    decreases j - i
  {
    if i < j {
      SkipPlainTokens(ts, i + 1, j, decode);
    }
  }

  /** A stream without objects and without tokenizer errors yields an empty list, not an error. */
  lemma NoObjectsYieldsEmptyList(ts: seq<Token>, decode: Decoder)
    requires forall k :: 0 <= k < |ts| ==> !ts[k].StartObject? && !ts[k].Invalid?
    ensures Scan(ts, 0, decode) == Some([])
  {
    SkipPlainTokens(ts, 0, |ts|, decode);
  }

  /** A tokenizer error reached at scan level fails the file, whatever follows it. */
  lemma TokenizerErrorFailsFile(pre: seq<Token>, post: seq<Token>, decode: Decoder)
    requires forall k :: 0 <= k < |pre| ==> !pre[k].StartObject? && !pre[k].Invalid?
    ensures Scan(pre + [Invalid] + post, 0, decode) == None
  {
    var ts := pre + [Invalid] + post;
    assert forall k :: 0 <= k < |pre| ==> ts[k] == pre[k];
    SkipPlainTokens(ts, 0, |pre|, decode);
    assert ts[|pre|] == Invalid;
  }
}
