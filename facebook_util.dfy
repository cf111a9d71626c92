/** The helpers the Facebook adapter shares (services/facebook/facebook-util.c):
    reading a string member of a Graph API object, turning a finished call
    into its JSON root or an error, and the address of a profile picture. */
module FacebookUtil {
  import opened Wrappers
  import opened Adapters
  import Strs

  /** FB_PICTURE_SIZE_SQUARE */
  const SquareSize := "square"

  // ---------------------------------------------------------------------
  // get_child_node_value

  /** get_child_node_value: a copy of the named member of an object node when
      that member holds a non-empty string; NULL for a missing node, a node
      that is not an object, a missing member, a member that is not a string,
      and the empty string. */
  function ChildValue(node: Option<Json>, name: string): (r: Option<string>)
    ensures r.Some? <==> node.Some? && node.value.JObject? && name in node.value.members &&
                         node.value.members[name].JString? && node.value.members[name].s != ""
    ensures r.Some? ==> r.value == node.value.members[name].s
  {
    match StringMember(AsObject(node), name)
    case Some(s) => if s != "" then Some(s) else None
    case None => None
  }

  // ---------------------------------------------------------------------
  // json_node_from_call

  /** What json_parser_load_from_data made of a payload: it failed to parse,
      it parsed to no root node, or it parsed to a root. */
  datatype Parse = Malformed | NoRoot | Parsed(root: Json)

  /** The errors json_node_from_call sets. */
  datatype CallError =
    | HttpStatus(code: int)
    | MalformedJson
    | EmptyReply
    | ErrorResponse(message: string)

  /** A call's result: the root node, or NULL with the error. */
  datatype Reply = Root(root: Json) | Failed(error: CallError)

  /** SOUP_STATUS_IS_SUCCESSFUL: a 2xx status. */
  predicate Successful(code: int)
  {
    200 <= code < 300
  }

  /** The message of a Graph API error reply: the "message" member of the
      object under "error" of a root object, read with get_child_node_value. */
  function ErrorMessage(root: Json): (r: Option<string>)
    ensures r.Some? ==> root.JObject? && "error" in root.members && r.value != ""
  {
    ChildValue(Member(AsObject(Some(root)), "error"), "message")
  }

  /** json_node_from_call: a status outside 2xx, a payload that does not
      parse, a payload without a root, and a root carrying an error message
      each give NULL and their error, checked in that order; any other root
      is returned as it is. */
  function JsonFromCall(code: int, payload: Parse): (r: Reply)
    ensures r.Root? <==> Successful(code) && payload.Parsed? && ErrorMessage(payload.root).None?
    ensures r.Root? ==> r.root == payload.root
    ensures !Successful(code) ==> r == Failed(HttpStatus(code))
    ensures Successful(code) && payload.Malformed? ==> r == Failed(MalformedJson)
    ensures Successful(code) && payload.NoRoot? ==> r == Failed(EmptyReply)
    ensures Successful(code) && payload.Parsed? && ErrorMessage(payload.root).Some? ==>
              r == Failed(ErrorResponse(ErrorMessage(payload.root).value))
  {
    if !Successful(code) then Failed(HttpStatus(code))
    else match payload
      case Malformed => Failed(MalformedJson)
      case NoRoot => Failed(EmptyReply)
      case Parsed(root) =>
        match ErrorMessage(root)
        case Some(m) => Failed(ErrorResponse(m))
        case None => Root(root)
  }

  /** An error object whose message is empty is not recognised: the reply
      {"error": {"message": ""}} comes back as a root. */
  lemma EmptyErrorMessageAccepted(code: int)
    requires Successful(code)
    ensures var root := JObject(map["error" := JObject(map["message" := JString("")])]);
            JsonFromCall(code, Parsed(root)) == Root(root)
  {
  }

  // ---------------------------------------------------------------------
  // build_picture_url

  /** build_picture_url: "<base>/<object>/picture?type=<size>", base being
      the proxy's URL format. */
  function PictureUrl(base: string, obj: string, size: string): (r: string)
    ensures Strs.IsPrefix(base + "/" + obj + "/", r)
  {
    base + "/" + obj + "/picture?type=" + size
  }

  /** On one proxy and one size, pictures of different objects (ids without
      a '/') have different addresses. */
  lemma PictureUrlInjective(base: string, a: string, b: string, size: string)
    requires '/' !in a && '/' !in b
    requires PictureUrl(base, a, size) == PictureUrl(base, b, size)
    ensures a == b
  {
    var tail := "picture?type=" + size;
    assert PictureUrl(base, a, size) == (base + "/") + (a + ['/'] + tail);
    assert PictureUrl(base, b, size) == (base + "/") + (b + ['/'] + tail);
    Strs.PrefixCancel(base + "/", a + ['/'] + tail, b + ['/'] + tail);
    Strs.SeparatedCancel(a, tail, b, tail, '/');
  }
}
