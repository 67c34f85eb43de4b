/** Requests and responses as JSON trees, and the checks made when they are read back. */
module Proto {

  datatype JValue =
    | JNull
    | JBool(b: bool)
    | JInteger(i: int)
    | JString(s: string)
    | JArray(items: seq<JValue>)
    | JObject(fields: map<string, JValue>)

  const CLIENT_NO := "clientno"
  const SERVER_NO := "serverno"
  const MESSAGE_ID := "messageid"
  const VERSION := "version"
  const TIMESTAMP := "timestamp"
  const METHOD := "method"
  const PARAM := "params"
  const RESULT := "result"
  const ERROR := "error"

  const SOCKET_CLOSED := 1
  const METHOD_NOT_FOUND := 2
  const JSON_NOT_PARSED := 3
  const PARAM_MISMATCH := 4
  const BAD_MESSAGE := 5
  const BAD_RESPONSE := 6

  const TWO_32 := 0x1_0000_0000
  const TWO_64 := 0x1_0000_0000_0000_0000

  /** The C++ conversions between the integer a JSON value holds (a `long`) and the fields of a request. */
  function ToInt(n: int): int {
    var m := n % TWO_32;
    if m >= TWO_32 / 2 then m - TWO_32 else m
  }

  function ToLong(n: int): int {
    var m := n % TWO_64;
    if m >= TWO_64 / 2 then m - TWO_64 else m
  }

  function ToSize(n: int): int {
    n % TWO_64
  }

  /** Each conversion changes a number by a multiple of its modulus, to the one number in the range of its type. */
  lemma ConversionsWrap(n: int)
    ensures IsInt(ToInt(n)) && exists k: int :: n == ToInt(n) + 4294967296 * k
    ensures IsLong(ToLong(n)) && exists k: int :: n == ToLong(n) + 18446744073709551616 * k
    ensures IsSize(ToSize(n)) && exists k: int :: n == ToSize(n) + 18446744073709551616 * k
  {
    var a, b := n / TWO_32, n / TWO_64;
    assert n == n % TWO_32 + 4294967296 * a && n == n % TWO_64 + 18446744073709551616 * b;
    assert n == ToInt(n) + 4294967296 * (if ToInt(n) < 0 then a + 1 else a);
    assert n == ToLong(n) + 18446744073709551616 * (if ToLong(n) < 0 then b + 1 else b);
  }

  predicate IsInt(n: int) {
    -TWO_32 / 2 <= n < TWO_32 / 2
  }

  predicate IsLong(n: int) {
    -TWO_64 / 2 <= n < TWO_64 / 2
  }

  predicate IsSize(n: int) {
    0 <= n < TWO_64
  }

  datatype Request = Request(clientno: int, serverno: int, version: int, timestamp: int, messageid: int,
                             handlerid: int, params: seq<JValue>)

  datatype Parsed = Accepted(request: Request) | JsonNotParsed

  /** A JSON object being filled in place. */
  class JBuilder {
    var fields: map<string, JValue>

    constructor ()
      ensures fields == map[]
    {
      fields := map[];
    }

    method Put(key: string, value: JValue)
      modifies this
      ensures fields == old(fields)[key := value]
    {
      fields := fields[key := value];
    }
  }

  /** The tree of a client's request. */
  function RequestTree(clientno: int, serverno: int, messageid: int, timestamp: int, method_: int,
                       params: seq<JValue>): JValue {
    JObject(map[
      CLIENT_NO := JInteger(clientno), SERVER_NO := JInteger(serverno), VERSION := JInteger(1),
      TIMESTAMP := JInteger(timestamp), MESSAGE_ID := JInteger(messageid), METHOD := JInteger(ToLong(method_)),
      PARAM := JArray(params)])
  }

  method BuildRequest(clientno: int, serverno: int, messageid: int, timestamp: int, method_: int,
                      params: seq<JValue>) returns (tree: JValue)
    ensures tree == RequestTree(clientno, serverno, messageid, timestamp, method_, params)
  {
    var obj := new JBuilder();
    obj.Put(CLIENT_NO, JInteger(clientno));
    obj.Put(SERVER_NO, JInteger(serverno));
    obj.Put(VERSION, JInteger(1));
    obj.Put(TIMESTAMP, JInteger(timestamp));
    obj.Put(MESSAGE_ID, JInteger(messageid));
    obj.Put(METHOD, JInteger(ToLong(method_)));
    obj.Put(PARAM, JArray(params));
    tree := JObject(obj.fields);
  }

  predicate HoldsInteger(fields: map<string, JValue>, key: string) {
    key in fields && fields[key].JInteger?
  }

  /** The server's checks, in the order it makes them. */
  function ParseRequest(tree: JValue): Parsed {
    if !tree.JObject? then JsonNotParsed
    else
      var f := tree.fields;
      if !HoldsInteger(f, CLIENT_NO) then JsonNotParsed
      else if !HoldsInteger(f, SERVER_NO) then JsonNotParsed
      else if !HoldsInteger(f, VERSION) then JsonNotParsed
      else if !HoldsInteger(f, TIMESTAMP) then JsonNotParsed
      else if !HoldsInteger(f, MESSAGE_ID) then JsonNotParsed
      else if !HoldsInteger(f, METHOD) then JsonNotParsed
      else if PARAM !in f || !f[PARAM].JArray? then JsonNotParsed
      else Accepted(Request(ToInt(f[CLIENT_NO].i), ToInt(f[SERVER_NO].i), ToInt(f[VERSION].i),
                            f[TIMESTAMP].i, ToInt(f[MESSAGE_ID].i), ToSize(f[METHOD].i), f[PARAM].items))
  }

  /** An object with six integers and an array. */
  predicate LooksLikeRequest(tree: JValue) {
    && tree.JObject?
    && (forall key <- ["clientno", "serverno", "version", "timestamp", "messageid", "method"] ::
          key in tree.fields && tree.fields[key].JInteger?)
    && "params" in tree.fields && tree.fields["params"].JArray?
  }

  /** Precisely these are accepted, whatever other fields they have; their id and parameters are taken from them. */
  lemma AcceptsExactly(tree: JValue)
    ensures ParseRequest(tree).Accepted? <==> LooksLikeRequest(tree)
    ensures LooksLikeRequest(tree) ==>
              var r := ParseRequest(tree).request;
              r.handlerid == ToSize(tree.fields["method"].i) && r.params == tree.fields["params"].items
  {
    var keys := ["clientno", "serverno", "version", "timestamp", "messageid", "method"];
    assert keys[0] == CLIENT_NO && keys[1] == SERVER_NO && keys[2] == VERSION && keys[3] == TIMESTAMP
        && keys[4] == MESSAGE_ID && keys[5] == METHOD;
  }

  /** The server recovers a request exactly when every field fits its C++ type; a handler id always does. */
  lemma RequestRoundTrip(clientno: int, serverno: int, messageid: int, timestamp: int, id: int, params: seq<JValue>)
    requires IsLong(timestamp) && IsSize(id)
    ensures var sent := RequestTree(clientno, serverno, messageid, timestamp, id, params);
            ParseRequest(sent) == Accepted(Request(clientno, serverno, 1, timestamp, messageid, id, params))
            <==> IsInt(clientno) && IsInt(serverno) && IsInt(messageid)
  {
  }

  lemma DistinctKeys()
    ensures |{CLIENT_NO, SERVER_NO, VERSION, TIMESTAMP, MESSAGE_ID, METHOD, PARAM}| == 7
    ensures RESULT != ERROR
  {
  }

  // ----------------------------------------------------------------------------------------------- responses

  function ResponseTree(content: JValue): JValue {
    JObject(map[RESULT := content])
  }

  function ErrorTree(code: int): JValue {
    JObject(map[ERROR := JInteger(code)])
  }

  /** `Fatal` is the LOG(FATAL) of the client on a reply it does not understand. */
  datatype Reply = Value(tree: JValue) | Throws(code: int) | Fatal

  function ParseResponse(tree: JValue): Reply {
    if !tree.JObject? then Fatal
    else if ERROR in tree.fields then
      if !tree.fields[ERROR].JInteger? then Fatal
      else
        var code := ToInt(tree.fields[ERROR].i);
        if code == SOCKET_CLOSED || code == METHOD_NOT_FOUND || code == JSON_NOT_PARSED
           || code == PARAM_MISMATCH || code == BAD_MESSAGE
        then Throws(code) else Fatal
    else Value(tree)
  }

  /** A tree that says an error, and with which code, once it is an `int`. */
  predicate SaysError(tree: JValue, code: int) {
    && tree.JObject? && "error" in tree.fields && tree.fields["error"].JInteger?
    && ToInt(tree.fields["error"].i) == code
  }

  /** What a client makes of any tree: one of five exceptions, a value if it is an object without an error, and the end of
      the program otherwise. */
  lemma ParseResponseExactly(tree: JValue)
    ensures forall code :: ParseResponse(tree) == Throws(code) <==> SaysError(tree, code) && 1 <= code <= 5
    ensures forall v :: ParseResponse(tree) == Value(v) <==> v == tree && tree.JObject? && "error" !in tree.fields
  {
  }

  /** The names and numbers on the wire. */
  lemma WireFormat(clientno: int, serverno: int, messageid: int, timestamp: int, id: int, params: seq<JValue>,
                   content: JValue, code: int)
    ensures RequestTree(clientno, serverno, messageid, timestamp, id, params)
         == JObject(map["clientno" := JInteger(clientno), "serverno" := JInteger(serverno), "version" := JInteger(1),
                        "timestamp" := JInteger(timestamp), "messageid" := JInteger(messageid),
                        "method" := JInteger(ToLong(id)), "params" := JArray(params)])
    ensures ResponseTree(content) == JObject(map["result" := content])
    ensures ErrorTree(code) == JObject(map["error" := JInteger(code)])
    ensures (SOCKET_CLOSED, METHOD_NOT_FOUND, JSON_NOT_PARSED, PARAM_MISMATCH, BAD_MESSAGE, BAD_RESPONSE)
         == (1, 2, 3, 4, 5, 6)
  {
  }

  /** An error is rethrown under its own code for every code but BAD_RESPONSE, which the client does not know; a
      result is never taken for an error. */
  lemma ResponseRoundTrip(content: JValue, code: int)
    ensures ParseResponse(ResponseTree(content)) == Value(ResponseTree(content))
    ensures RESULT in ResponseTree(content).fields && ResponseTree(content).fields[RESULT] == content
    ensures ParseResponse(ErrorTree(code)) == Throws(code) <==> SOCKET_CLOSED <= code <= BAD_MESSAGE
    ensures RESULT !in ErrorTree(code).fields
  {
  }
}
