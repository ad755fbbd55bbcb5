/**
 * `ServerResponse`: an immutable message from the server, with its kind, a
 * payload of strings and an optional raw text kept for logging.
 */
module ServerResponses {
  import opened Wrappers
  import opened ResponseCodes

  /**
   * `getType`, `getPayload` and `getRawMessage` are the fields. A Dafny
   * sequence is a value, so storing it is already the defensive,
   * unmodifiable copy the constructor makes.
   */
  datatype ServerResponse = ServerResponse(kind: ResponseCode, payload: seq<string>, raw: Option<string>)

  /** The message `Objects.requireNonNull` throws with. */
  const NULL_TYPE: string := "Response type cannot be null"

  /** The constructor: a null type throws; a null payload becomes the empty list. */
  function NewResponse(kind: Option<ResponseCode>, payload: Option<seq<string>>, raw: Option<string>): (r: Result<ServerResponse, string>)
    ensures r.Err? <==> kind.None?
    ensures r.Err? ==> r.error == NULL_TYPE
    ensures r.Ok? ==> r.value.kind == kind.value && r.value.raw == raw
    ensures r.Ok? && payload.None? ==> r.value.payload == []
    ensures r.Ok? && payload.Some? ==> r.value.payload == payload.value
  {
    match kind
    case None => Err(NULL_TYPE)
    case Some(k) => Ok(ServerResponse(k, match payload case None => [] case Some(p) => p, raw))
  }

  /** `create`: the constructor with no raw text. */
  function Create(kind: Option<ResponseCode>, payload: Option<seq<string>>): (r: Result<ServerResponse, string>)
    ensures r.Err? <==> kind.None?
    ensures r.Ok? ==> r.value.kind == kind.value && r.value.raw.None?
    ensures r.Ok? ==> r.value.payload == if payload.Some? then payload.value else []
  {
    NewResponse(kind, payload, None)
  }

  /** `getPayloadAsStringSafe`: `payload.get(0)`, which throws on an empty payload despite the name. */
  function PayloadAsStringSafe(r: ServerResponse): (s: Result<string, string>)
    ensures s.Ok? <==> |r.payload| > 0
    ensures s.Ok? ==> s.value == r.payload[0]
  {
    if |r.payload| == 0 then Err("IndexOutOfBoundsException") else Ok(r.payload[0])
  }

  /** String concatenation prints a null reference as "null". */
  function RawText(raw: Option<string>): (s: string)
    ensures raw.Some? ==> s == raw.value
  {
    match raw
    case None => "null"
    case Some(t) => t
  }

  /** `toString`: the kind's name, ": ", then the raw text. */
  function ToString(r: ServerResponse): (s: string)
    ensures |s| >= |Name(r.kind)| + 2
    ensures s[..|Name(r.kind)|] == Name(r.kind) && s[|Name(r.kind)|..|Name(r.kind)| + 2] == ": "
    ensures s[|Name(r.kind)| + 2..] == RawText(r.raw)
  {
    Name(r.kind) + ": " + RawText(r.raw)
  }

  /** Constant names are upper-case identifiers, so none contains a colon. */
  lemma NameHasNoColon(c: ResponseCode)
    ensures ':' !in Name(c)
  {
    match c
    case Success =>
    case Error =>
    case InvalidRequest =>
    case GameStateUpdate =>
    case GameStart =>
    case GameEnd =>
    case RoundUpdate =>
    case PlayerJoined =>
    case PlayerLeft =>
    case ClientList =>
    case MovePiece =>
    case RemovePiece =>
    case ChatMessage =>
    case Notification =>
    case RoleAssign =>
  }

  /** The index of the first colon in `s`, or `|s|` when there is none. */
  function ColonIndex(s: string): (k: nat)
    ensures k <= |s|
    ensures forall i :: 0 <= i < k ==> s[i] != ':'
    ensures k < |s| ==> s[k] == ':'
  {
    if |s| == 0 then 0 else if s[0] == ':' then 0 else 1 + ColonIndex(s[1..])
  }

  /** In "N: R" with no colon in N, the first colon ends N. */
  lemma {:induction false} ColonAfterName(n: string, r: string)
    requires ':' !in n
    ensures ColonIndex(n + ": " + r) == |n|
  {
    if |n| > 0 {
      assert (n + ": " + r)[1..] == n[1..] + ": " + r;
      assert n[0] != ':';
      ColonAfterName(n[1..], r);
    }
  }

  /** The text form determines the kind and the raw text (the payload is not printed). */
  lemma ToStringInjective(a: ServerResponse, b: ServerResponse)
    requires ToString(a) == ToString(b)
    ensures a.kind == b.kind && RawText(a.raw) == RawText(b.raw)
  {
    var s := ToString(a);
    NameHasNoColon(a.kind);
    NameHasNoColon(b.kind);
    ColonAfterName(Name(a.kind), RawText(a.raw));
    ColonAfterName(Name(b.kind), RawText(b.raw));
    assert Name(a.kind) == s[..ColonIndex(s)] == Name(b.kind);
    NameInjective(a.kind, b.kind);
  }

  /** A missing raw text and the raw text "null" print the same. */
  lemma ToStringNullAmbiguous(k: ResponseCode, p: seq<string>)
    ensures ToString(ServerResponse(k, p, None)) == ToString(ServerResponse(k, p, Some("null")))
  {
  }
}
