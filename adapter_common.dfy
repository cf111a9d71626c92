/** What the web-service adapters share: the JSON and XML trees their replies
    are parsed into (json-glib's JsonNode and librest's RestXmlNode, read
    through the accessors the adapters call), the item an adapter builds from
    one record before it joins a set, the capability names, and the requests
    an adapter sends.  The parsers and the network are outside the model: a
    parsed reply is an input. */
module Adapters {
  import opened Wrappers
  import Strs

  /** A parsed JSON value. */
  datatype Json =
    | JNull
    | JBool(b: bool)
    | JInt(i: int)
    | JString(s: string)
    | JArray(elems: seq<Json>)
    | JObject(members: map<string, Json>)

  type JsonObject = map<string, Json>

  /** json_node_get_object: the members of an object node, NULL for any other
      node and for a missing one. */
  function AsObject(n: Option<Json>): (r: Option<JsonObject>)
    ensures r.Some? <==> n.Some? && n.value.JObject?
    ensures r.Some? ==> r.value == n.value.members
  {
    if n.Some? && n.value.JObject? then Some(n.value.members) else None
  }

  /** json_node_get_array followed by json_array_get_length and _get_element:
      the elements of an array node, none for anything else. */
  function Elements(n: Option<Json>): (r: seq<Json>)
    ensures n.Some? && n.value.JArray? ==> r == n.value.elems
    ensures !(n.Some? && n.value.JArray?) ==> r == []
  {
    if n.Some? && n.value.JArray? then n.value.elems else []
  }

  /** json_object_has_member; on a NULL object it fails its check and answers
      FALSE. */
  predicate HasMember(o: Option<JsonObject>, name: string)
  {
    o.Some? && name in o.value
  }

  /** json_object_get_member: the member's node, NULL when it is missing. */
  function Member(o: Option<JsonObject>, name: string): (r: Option<Json>)
    ensures r.Some? <==> HasMember(o, name)
  {
    if HasMember(o, name) then Some(o.value[name]) else None
  }

  /** json_object_get_int_member: the member's integer, 0 when it is missing or
      not an integer. */
  function IntMember(o: Option<JsonObject>, name: string): int
  {
    match Member(o, name)
    case Some(JInt(i)) => i
    case _ => 0
  }

  /** json_object_get_string_member: the member's string, NULL when it is
      missing or not a string. */
  function StringMember(o: Option<JsonObject>, name: string): (r: Option<string>)
    ensures r.Some? ==> Member(o, name) == Some(JString(r.value))
  {
    match Member(o, name)
    case Some(JString(s)) => Some(s)
    case _ => None
  }

  /** json_object_get_object_member: the member's object, NULL when it is
      missing or not an object. */
  function ObjectMember(o: Option<JsonObject>, name: string): (r: Option<JsonObject>)
    ensures r.Some? <==> HasMember(o, name) && o.value[name].JObject?
  {
    AsObject(Member(o, name))
  }

  /** json_object_get_null_member: TRUE only for a member holding null. */
  predicate NullMember(o: Option<JsonObject>, name: string)
  {
    Member(o, name) == Some(JNull)
  }

  /** printf's "%s": a NULL string prints as "(null)". */
  function Printed(s: Option<string>): string
  {
    match s
    case Some(v) => v
    case None => "(null)"
  }

  /** A parsed XML element: its tag, attributes, text content (NULL when it
      has none) and child elements in document order. */
  datatype Xml = Xml(name: string, attrs: map<string, string>, content: Option<string>, children: seq<Xml>)

  /** rest_xml_node_get_attr */
  function Attr(n: Xml, key: string): (r: Option<string>)
    ensures r.Some? <==> key in n.attrs
  {
    if key in n.attrs then Some(n.attrs[key]) else None
  }

  /** The direct children with a tag, in document order: the node librest
      files under the tag and the nodes its `next` chain links to. */
  function ChildrenNamed(n: Xml, tag: string): (r: seq<Xml>)
    ensures forall k | 0 <= k < |r| :: r[k].name == tag && r[k] in n.children
    ensures r == [] <==> forall k | 0 <= k < |n.children| :: n.children[k].name != tag
  {
    ChildrenNamedFrom(n.children, tag)
  }

  function ChildrenNamedFrom(cs: seq<Xml>, tag: string): (r: seq<Xml>)
    ensures forall k | 0 <= k < |r| :: r[k].name == tag && r[k] in cs
    ensures r == [] <==> forall k | 0 <= k < |cs| :: cs[k].name != tag
  {
    if cs == [] then []
    else if cs[0].name == tag then [cs[0]] + ChildrenNamedFrom(cs[1..], tag)
    else ChildrenNamedFrom(cs[1..], tag)
  }

  /** rest_xml_node_find followed by its `next` chain: the children with the
      tag of the first node, searching from the start node downwards, that
      has any. */
  function FindAll(n: Xml, tag: string): (r: seq<Xml>)
    ensures forall k | 0 <= k < |r| :: r[k].name == tag
    decreases n, |n.children| + 1
  {
    if ChildrenNamed(n, tag) != [] then ChildrenNamed(n, tag) else FindAllIn(n, tag, 0)
  }

  function FindAllIn(n: Xml, tag: string, i: nat): (r: seq<Xml>)
    requires i <= |n.children|
    ensures forall k | 0 <= k < |r| :: r[k].name == tag
    decreases n, |n.children| - i
  {
    if i == |n.children| then []
    else
      var found := FindAll(n.children[i], tag);
      if found != [] then found else FindAllIn(n, tag, i + 1)
  }

  /** rest_xml_node_find: the first node with the tag below the start node,
      NULL when there is none. */
  function Find(n: Xml, tag: string): (r: Option<Xml>)
    ensures r.Some? ==> r.value.name == tag
    ensures r.None? <==> FindAll(n, tag) == []
  {
    var all := FindAll(n, tag);
    if all == [] then None else Some(all[0])
  }

  /** A direct child found first: the search looks at the start node's own
      children before going deeper. */
  lemma FindPrefersChild(n: Xml, tag: string, k: nat)
    requires k < |n.children| && n.children[k].name == tag
    requires forall j | 0 <= j < k :: n.children[j].name != tag
    ensures Find(n, tag) == Some(n.children[k])
  {
    FirstNamed(n.children, tag, k);
  }

  lemma {:induction false} FirstNamed(cs: seq<Xml>, tag: string, k: nat)
    requires k < |cs| && cs[k].name == tag
    requires forall j | 0 <= j < k :: cs[j].name != tag
    ensures ChildrenNamedFrom(cs, tag) != [] && ChildrenNamedFrom(cs, tag)[0] == cs[k]
  {
    if k > 0 {
      FirstNamed(cs[1..], tag, k - 1);
    }
  }

  /** The text of an optional node, NULL when the node is missing or has no
      text. */
  function ContentOf(n: Option<Xml>): Option<string>
  {
    if n.Some? then n.value.content else None
  }

  /** A loop over a list that appends f of each element to a new list, in
      order. */
  method MapEach<X, Y>(xs: seq<X>, f: X -> Y) returns (ys: seq<Y>)
    ensures |ys| == |xs|
    ensures forall k | 0 <= k < |xs| :: ys[k] == f(xs[k])
  {
    ys := [];
    var i := 0;
    while i < |xs|
      invariant 0 <= i <= |xs| && |ys| == i
      invariant forall k | 0 <= k < i :: ys[k] == f(xs[k])
    {
      ys := ys + [f(xs[i])];
      i := i + 1;
    }
  }

  /** g_strconcat: the strings up to the first NULL, joined. */
  function StrConcat(parts: seq<Option<string>>): (r: string)
    ensures parts != [] && parts[0].Some? ==> Strs.IsPrefix(parts[0].value, r)
    ensures parts == [] || parts[0].None? ==> r == ""
  {
    if parts == [] || parts[0].None? then "" else parts[0].value + StrConcat(parts[1..])
  }

  /** A prefix and a string that may be NULL, through g_strconcat. */
  lemma StrConcatPair(a: string, b: Option<string>)
    ensures StrConcat([Some(a), b]) == a + b.GetOr("")
  {
    assert [Some(a), b][1..] == [b];
    if b.Some? {
      assert [b][1..] == [];
    }
  }

  /** xml_get_child_node_value, which the XML adapters each define: the text
      of the first node with the tag, NULL when there is none or its text is
      missing or empty. */
  function XmlChildValue(node: Xml, tag: string): (r: Option<string>)
    ensures r.Some? <==> ContentOf(Find(node, tag)).Some? && ContentOf(Find(node, tag)).value != ""
    ensures r.Some? ==> r == ContentOf(Find(node, tag))
  {
    var c := ContentOf(Find(node, tag));
    if c.Some? && c.value != "" then c else None
  }

  /** An image download an item asks for: the property it fills, the URL, and
      whether the item stays not ready until it finishes. */
  datatype ImageFetch = ImageFetch(delaysReady: bool, key: string, url: string)

  /** An item as an adapter builds it: its properties and the downloads it
      requested.  Sets of built items are keyed by the "id" property. */
  datatype Draft = Draft(props: map<string, string>, fetches: seq<ImageFetch>)
  {
    function Get(key: string): Option<string> {
      if key in props then Some(props[key]) else None
    }
  }

  /** sw_item_put: a value is stored, a NULL value removes the key. */
  function Put(props: map<string, string>, key: string, value: Option<string>): (r: map<string, string>)
    ensures value.Some? ==> key in r && r[key] == value.value
    ensures value.None? ==> key !in r
    ensures forall k | k != key :: (k in r <==> k in props) && (k in r ==> r[k] == props[k])
  {
    if value.Some? then props[key := value.value] else props - {key}
  }

  function DraftId(d: Draft): string {
    d.Get("id").GetOr("")
  }

  /** sw_set_add on an item set: an item with the id of a member replaces it. */
  function AddReplacing(s: map<string, Draft>, d: Draft): (r: map<string, Draft>)
    ensures r.Keys == s.Keys + {DraftId(d)}
    ensures r[DraftId(d)] == d
    ensures forall k | k in s && k != DraftId(d) :: r[k] == s[k]
  {
    s[DraftId(d) := d]
  }

  /** mojito_set_add on an item set: an item whose id is held already is
      dropped. */
  function AddKeeping(s: map<string, Draft>, d: Draft): (r: map<string, Draft>)
    ensures r.Keys == s.Keys + {DraftId(d)}
    ensures DraftId(d) !in s ==> r[DraftId(d)] == d
    ensures forall k | k in s :: r[k] == s[k]
  {
    if DraftId(d) in s then s else s[DraftId(d) := d]
  }

  /** The capability names of sw-service.h. */
  const IsConfigured := "is-configured"
  const CanVerifyCredentials := "can-verify-credentials"
  const CredentialsValid := "credentials-valid"
  const CredentialsInvalid := "credentials-invalid"
  const CanUpdateStatus := "can-update-status"
  const CanRequestAvatar := "can-request-avatar"
  const CanGeotag := "can-geotag"

  /** The interface names of the static capabilities. */
  const HasUpdateStatusIface := "has-update-status-iface"
  const HasAvatarIface := "has-avatar-iface"
  const HasPhotoUploadIface := "has-photo-upload-iface"
  const HasVideoUploadIface := "has-video-upload-iface"
  const HasBanishableIface := "has-banishable-iface"
  const HasQueryIface := "has-query-iface"

  /** A user name read from the configuration: an unset or empty value is
      no user. */
  function ConfiguredUser(value: Option<string>): (r: Option<string>)
    ensures r.Some? <==> value.Some? && value.value != ""
    ensures r.Some? ==> r == value
  {
    if value.Some? && value.value == "" then None else value
  }

  /** What an adapter sends out: a web API call, an image download, or a
      keyring lookup. */
  datatype Outgoing =
    | Rest(verb: string, endpoint: string, params: seq<(string, string)>)
    | Download(url: string)
    | KeyringLookup(server: string)

  /** The signals a service object emits. */
  datatype ServiceSignal =
    | CapabilitiesChanged(caps: seq<string>)
    | UserChanged
    | StatusUpdated(ok: bool)
    | AvatarRetrieved(path: string)

  /** The answer to an OpenView query: the view, or an error. */
  datatype OpenViewReply = ViewOpened(query: string) | InvalidQuery(query: string)
}
