/** The Flickr views (services/flickr/flickr-item-view.c and
    services/flickr/flickr-contact-view.c): the item a photo makes, with the
    largest photo URL the reply offers, the contact a contact node makes, the
    request each query maps to, and the reply callbacks that build the set a
    view is set from.  Start, stop, refresh and the reaction to the
    service's signals are the ones every polling view shares
    (AdapterViews.PollingView). */
module FlickrViews {
  import opened Wrappers
  import opened Adapters
  import opened AdapterViews
  import Flickr
  import Strs

  /** The largest photo the reply links: the original, else the large one,
      else the medium one, NULL when it has none of them. */
  function LargestPhotoUrl(n: Xml): (r: Option<string>)
    ensures "url_o" in n.attrs ==> r == Some(n.attrs["url_o"])
    ensures "url_o" !in n.attrs && "url_l" in n.attrs ==> r == Some(n.attrs["url_l"])
    ensures "url_o" !in n.attrs && "url_l" !in n.attrs ==> r == Attr(n, "url_m")
  {
    var url := Attr(n, "url_o");
    var url := if url.None? then Attr(n, "url_l") else url;
    if url.None? then Attr(n, "url_m") else url
  }

  /** _flickr_item_from_from_photo_node (flickr-item-view.c): the photo's
      properties as the service builds them, the largest photo URL as
      x-flickr-photo-url, the upload date, the geotag, and two downloads: the
      medium-size photo as the thumbnail, which holds the item back, and the
      buddy icon, which does not. */
  function PhotoItem(n: Xml, makeDate: int -> string): (d: Draft)
    requires Flickr.Complete(n)
    ensures DraftId(d) == Flickr.PageUrl(n).value
    ensures ("x-flickr-photo-url" in d.props <==> LargestPhotoUrl(n).Some?) &&
            ("x-flickr-photo-url" in d.props ==> d.props["x-flickr-photo-url"] == LargestPhotoUrl(n).value)
    ensures "date" in d.props && d.props["date"] == makeDate(Strs.Atoi(n.attrs["dateupload"]))
    ensures ("latitude" in d.props <==> Flickr.Located(n)) && ("longitude" in d.props <==> Flickr.Located(n))
    ensures d.fetches == Flickr.Thumbnail(true, Attr(n, "url_m")) +
                         [ImageFetch(false, "authoricon", Flickr.BuddyIconUrl(n))]
  {
    var p := Put(Flickr.DatedProps(n, makeDate), "x-flickr-photo-url", LargestPhotoUrl(n));
    Draft(Flickr.ExtractLocation(n, p),
          Flickr.Thumbnail(true, Attr(n, "url_m")) + [ImageFetch(false, "authoricon", Flickr.BuddyIconUrl(n))])
  }

  /** A photo's item, when the photo has what the item is built from. */
  function PhotoItemOf(makeDate: int -> string): Xml -> Option<Draft>
  {
    n => if Flickr.Complete(n) then Some(PhotoItem(n, makeDate)) else None
  }

  /** The set _photos_received_cb builds: each photo's item whose id is not
      banned, added in turn with sw_set_add. */
  function PhotoSet(root: Option<Xml>, banned: set<string>, makeDate: int -> string): map<string, Draft>
  {
    Collected(Flickr.Photos(root), PhotoItemOf(makeDate), DraftId, banned, true)
  }

  /** No banned id is in a photo set, and every photo whose page is not
      banned has its page in it. */
  lemma PhotoSetSkipsBanned(root: Option<Xml>, banned: set<string>, makeDate: int -> string)
    requires forall k | 0 <= k < |Flickr.Photos(root)| :: Flickr.Complete(Flickr.Photos(root)[k])
    ensures forall id | id in PhotoSet(root, banned, makeDate) :: id !in banned
    ensures forall k | 0 <= k < |Flickr.Photos(root)| && Flickr.PageUrl(Flickr.Photos(root)[k]).Some? &&
                       Flickr.PageUrl(Flickr.Photos(root)[k]).value !in banned ::
              Flickr.PageUrl(Flickr.Photos(root)[k]).value in PhotoSet(root, banned, makeDate)
  {
    var ps := Flickr.Photos(root);
    CollectedSound(ps, PhotoItemOf(makeDate), DraftId, banned, true);
    CollectedComplete(ps, PhotoItemOf(makeDate), DraftId, banned, true);
    forall k | 0 <= k < |ps| && Flickr.PageUrl(ps[k]).Some? && Flickr.PageUrl(ps[k]).value !in banned
      ensures Flickr.PageUrl(ps[k]).value in PhotoSet(root, banned, makeDate)
    {
      assert Kept(ps[k], PhotoItemOf(makeDate), DraftId, banned);
    }
  }

  /** The parameters every photo request ends with. */
  const PhotoRequestTail: seq<(string, string)> :=
    [("count", "50"), ("extras", "date_upload,icon_server,geo,url_m,url_l,url_o")]

  /** The parameters of a search: text and tags as given, and the view's
      "licenses" parameter sent as "license", each only when the view has
      it. */
  function SearchParams(params: map<string, string>): seq<(string, string)>
  {
    (if "text" in params then [("text", params["text"])] else []) +
    (if "tags" in params then [("tags", params["tags"])] else []) +
    (if "licenses" in params then [("license", params["licenses"])] else [])
  }

  /** _make_request: the API call a query maps to; None for any other query,
      where the source aborts the daemon with g_error. */
  function PhotosRequest(query: string, params: map<string, string>): (r: Option<Outgoing>)
    ensures r.Some? <==> query in {"x-flickr-search", "own", "friends-only", "feed"}
    ensures r.Some? ==> r.value.Rest? && |r.value.params| >= 2 &&
                        r.value.params[|r.value.params| - 2..] == PhotoRequestTail
  {
    var call :=
      if query == "x-flickr-search" then Some(("flickr.photos.search", SearchParams(params)))
      else if query == "own" then Some(("flickr.people.getPhotos", [("user_id", "me")]))
      else if query == "friends-only" || query == "feed" then
        Some(("flickr.photos.getContactsPhotos", [("include_self", if query == "friends-only" then "0" else "1")]))
      else None;
    if call.None? then None
    else
      var ps := call.value.1 + PhotoRequestTail;
      assert ps[|ps| - 2..] == PhotoRequestTail;
      Some(Rest("GET", call.value.0, ps))
  }

  /** The contact feed includes the user's own photos and friends-only does
      not; a search sends a licence filter exactly when the view has one. */
  lemma RequestFilters(query: string, params: map<string, string>)
    ensures query == "feed" ==> ("include_self", "1") in PhotosRequest(query, params).value.params
    ensures query == "friends-only" ==> ("include_self", "0") in PhotosRequest(query, params).value.params
    ensures query == "x-flickr-search" ==>
              ("licenses" in params <==> exists v :: ("license", v) in PhotosRequest(query, params).value.params)
  {
    if query == "x-flickr-search" {
      var ps := PhotosRequest(query, params).value.params;
      assert ps == SearchParams(params) + PhotoRequestTail;
      if "licenses" in params {
        assert ("license", params["licenses"]) in ps;
      }
    }
  }

  /** A Flickr item view: its query and parameters, the polling state every
      adapter view keeps, the requests sent, and whether an unknown query
      aborted the daemon. */
  class FlickrItemView {
    const query: string
    const params: map<string, string>
    const view: PollingView
    var sent: seq<Outgoing>
    var aborted: bool

    constructor (query: string, params: map<string, string>)
      ensures this.query == query && this.params == params && fresh(view)
      ensures !view.timerArmed && view.published == [] && view.saved == []
      ensures sent == [] && !aborted
    {
      this.query := query;
      this.params := params;
      view := new PollingView();
      sent := [];
      aborted := false;
    }

    /** _got_tokens_cb: authorised, the query's request is sent (or the
        daemon aborts on an unknown query); otherwise nothing happens. */
    method GotTokens(authorised: bool)
      modifies this`sent, this`aborted
      ensures !authorised ==> sent == old(sent) && aborted == old(aborted)
      ensures authorised && PhotosRequest(query, params).Some? ==>
                sent == old(sent) + [PhotosRequest(query, params).value] && aborted == old(aborted)
      ensures authorised && PhotosRequest(query, params).None? ==> sent == old(sent) && aborted
    {
      if !authorised {
        return;
      }
      var call := PhotosRequest(query, params);
      if call.None? {
        aborted := true;
        return;
      }
      sent := sent + [call.value];
    }

    /** _photos_received_cb: an error changes nothing; otherwise the reply's
        photo set, without banned ids, is what the view is set from and what
        is saved to the cache.  A reply that does not parse gives an empty
        set. */
    method PhotosReceived(error: bool, root: Option<Xml>, banned: set<string>, makeDate: int -> string)
      requires forall k | 0 <= k < |Flickr.Photos(root)| :: Flickr.Complete(Flickr.Photos(root)[k])
      modifies view`published, view`saved
      ensures error ==> view.published == old(view.published) && view.saved == old(view.saved)
      ensures !error ==> view.published == old(view.published) + [PhotoSet(root, banned, makeDate)] &&
                         view.saved == old(view.saved) + [PhotoSet(root, banned, makeDate)]
    {
      if error {
        return;
      }
      var items := Collect(Flickr.Photos(root), PhotoItemOf(makeDate), DraftId, banned, true);
      view.Publish(items);
    }
  }

  /** The icon _flickr_contact_from_node gives a contact: the farm URL when
      iconserver and iconfarm are present and the server is not the string
      "0", the default icon otherwise. */
  function ContactIconUrl(n: Xml, nsid: string): (r: string)
    ensures r == Flickr.DefaultBuddyIcon <==>
              !("iconserver" in n.attrs && "iconfarm" in n.attrs && n.attrs["iconserver"] != "0")
  {
    var server := Attr(n, "iconserver");
    var farm := Attr(n, "iconfarm");
    if server.Some? && farm.Some? && server.value != "0" then
      var url := "http://farm" + farm.value + ".static.flickr.com/" + server.value + "/buddyicons/" + nsid + ".jpg";
      assert url[7] == 'f' && Flickr.DefaultBuddyIcon[7] == 'w';
      url
    else Flickr.DefaultBuddyIcon
  }

  /** For an icon server written as a number, the contact rule and the
      service's buddy-icon rule give the same URL. */
  lemma ContactIconAgrees(n: Xml, server: nat)
    requires "iconfarm" in n.attrs && "owner" in n.attrs
    requires "iconserver" in n.attrs && n.attrs["iconserver"] == Strs.NatToDecimal(server)
    ensures ContactIconUrl(n, n.attrs["owner"]) == Flickr.BuddyIconUrl(n)
  {
    Strs.AtoiDecimal(server);
    Strs.AtoiDecimal(0);
    if server != 0 {
      Strs.DecimalInjective(server, 0);
    }
  }

  /** The two rules part on a server written "00": the contact gets the farm
      URL, the photo's owner the default icon. */
  lemma ContactIconDiffersOnPaddedZero(n: Xml)
    requires "iconfarm" in n.attrs && "owner" in n.attrs
    requires "iconserver" in n.attrs && n.attrs["iconserver"] == "00"
    ensures ContactIconUrl(n, n.attrs["owner"]) != Flickr.DefaultBuddyIcon
    ensures Flickr.BuddyIconUrl(n) == Flickr.DefaultBuddyIcon
  {
    DoubleZeroReadsZero(n.attrs["iconserver"]);
    assert n.attrs["iconserver"] != "0";
  }

  /** atoi reads "00" as 0. */
  lemma DoubleZeroReadsZero(s: string)
    requires s == "00"
    ensures Strs.Atoi(s) == 0
  {
    assert Strs.AllDigits(s) && s[0] == '0';
    Strs.DigitRunToEnd(s, 0);
    assert s[0..2] == s;
    var one := s[..1];
    assert one == "0" && one[..0] == "" && one[0] == '0' && s[1] == '0';
    assert Strs.DecimalValue(one) == Strs.DecimalValue(one[..0]) * 10 + Strs.DigitValue(one[0]) == 0;
    assert Strs.DecimalValue(s) == Strs.DecimalValue(one) * 10 + Strs.DigitValue(s[1]) == 0;
    assert Strs.SkipSpace(s, 0) == 0;
  }

  /** _flickr_contact_from_node: a node without nsid makes no contact;
      otherwise the contact has the nsid as id, the real name as fn and the
      user name as name when the node has them, the current time as date, and
      the icon download, which holds the contact back. */
  function MakeContact(n: Xml, now: string): (c: Option<Draft>)
    ensures c.None? <==> "nsid" !in n.attrs
    ensures c.Some? ==> DraftId(c.value) == n.attrs["nsid"] && c.value.Get("date") == Some(now)
    ensures c.Some? ==> c.value.Get("fn") == Attr(n, "realname") && c.value.Get("name") == Attr(n, "username")
    ensures c.Some? ==> c.value.fetches == [ImageFetch(true, "icon", ContactIconUrl(n, n.attrs["nsid"]))]
  {
    var nsid := Attr(n, "nsid");
    if nsid.None? then None
    else
      var p := Put(Put(map["id" := nsid.value], "fn", Attr(n, "realname")), "name", Attr(n, "username"));
      Some(Draft(p["date" := now], [ImageFetch(true, "icon", ContactIconUrl(n, nsid.value))]))
  }

  /** The contact nodes of a reply: the "contact" nodes under the first
      "contacts" node. */
  function Contacts(root: Option<Xml>): seq<Xml>
  {
    if root.None? then []
    else match Find(root.value, "contacts")
      case None => []
      case Some(contacts) => FindAll(contacts, "contact")
  }

  /** The set _contacts_received_cb builds: each contact whose id is not
      banned, added in turn with sw_set_add. */
  function ContactSet(root: Option<Xml>, banned: set<string>, now: string): map<string, Draft>
  {
    Collected(Contacts(root), (n: Xml) => MakeContact(n, now), DraftId, banned, true)
  }

  /** Every member of a contact set is a contact node's contact under its
      nsid, no nsid in it is banned, and every node with an nsid that is not
      banned is in it. */
  lemma ContactSetFromNodes(root: Option<Xml>, banned: set<string>, now: string)
    ensures forall id | id in ContactSet(root, banned, now) ::
              id !in banned && MadeBySome(Contacts(root), (n: Xml) => MakeContact(n, now), ContactSet(root, banned, now)[id])
    ensures forall k | 0 <= k < |Contacts(root)| ::
              "nsid" in Contacts(root)[k].attrs && Contacts(root)[k].attrs["nsid"] !in banned ==>
                Contacts(root)[k].attrs["nsid"] in ContactSet(root, banned, now)
  {
    var cs := Contacts(root);
    var make := (n: Xml) => MakeContact(n, now);
    CollectedSound(cs, make, DraftId, banned, true);
    CollectedComplete(cs, make, DraftId, banned, true);
    forall k | 0 <= k < |cs| && "nsid" in cs[k].attrs && cs[k].attrs["nsid"] !in banned
      ensures cs[k].attrs["nsid"] in ContactSet(root, banned, now)
    {
      assert Kept(cs[k], make, DraftId, banned);
    }
  }

  /** _make_request of the contact view: "people" lists the user's
      contacts; any other query aborts the daemon with g_error. */
  function ContactsRequest(query: string): (r: Option<Outgoing>)
    ensures r.Some? <==> query == "people"
    ensures r.Some? ==> r.value.Rest? && r.value.endpoint == "flickr.contacts.getList"
  {
    if query == "people" then Some(Rest("GET", "flickr.contacts.getList", [])) else None
  }

  /** A Flickr contact view: its query, the polling state, the requests
      sent, and whether an unknown query aborted the daemon. */
  class FlickrContactView {
    const query: string
    const view: PollingView
    var sent: seq<Outgoing>
    var aborted: bool

    constructor (query: string)
      ensures this.query == query && fresh(view)
      ensures !view.timerArmed && view.published == [] && view.saved == []
      ensures sent == [] && !aborted
    {
      this.query := query;
      view := new PollingView();
      sent := [];
      aborted := false;
    }

    /** _got_tokens_cb: authorised, the contact list is requested (or the
        daemon aborts on a query other than "people"). */
    method GotTokens(authorised: bool)
      modifies this`sent, this`aborted
      ensures !authorised ==> sent == old(sent) && aborted == old(aborted)
      ensures authorised && query == "people" ==>
                sent == old(sent) + [ContactsRequest(query).value] && aborted == old(aborted)
      ensures authorised && query != "people" ==> sent == old(sent) && aborted
    {
      if !authorised {
        return;
      }
      var call := ContactsRequest(query);
      if call.None? {
        aborted := true;
        return;
      }
      sent := sent + [call.value];
    }

    /** _contacts_received_cb: an error changes nothing; otherwise the
        reply's contact set, without banned ids, is what the view is set from
        and what is saved to the cache. */
    method ContactsReceived(error: bool, root: Option<Xml>, banned: set<string>, now: string)
      modifies view`published, view`saved
      ensures error ==> view.published == old(view.published) && view.saved == old(view.saved)
      ensures !error ==> view.published == old(view.published) + [ContactSet(root, banned, now)] &&
                         view.saved == old(view.saved) + [ContactSet(root, banned, now)]
    {
      if error {
        return;
      }
      var contacts := Collect(Contacts(root), (n: Xml) => MakeContact(n, now), DraftId, banned, true);
      view.Publish(contacts);
    }
  }
}
