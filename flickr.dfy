/** The Flickr service objects (services/flickr/flickr.c and its predecessor
    services/flickr/mojito-service-flickr.c): the check that a photo node has
    the attributes a URL needs, the photo, page and buddy-icon URLs built from
    them, the geotag an item takes, the item a photo makes, and the service's
    refresh cycle: start, a refresh guarded by running and refreshing, the
    answer of the token lookup, the photo reply, and refresh_done.  The two
    files differ only in the request they send, the item they build and the
    set they add it to; a service object names which one it follows. */
module Flickr {
  import opened Wrappers
  import opened Adapters
  import opened AdapterViews
  import Strs

  /** Every named attribute is present. */
  predicate HasAttrs(n: Xml, names: seq<string>)
  {
    forall k | 0 <= k < |names| :: names[k] in n.attrs
  }

  /** check_attrs: the names are looked up in turn and the first missing one
      fails the check. */
  method CheckAttrs(n: Xml, names: seq<string>) returns (ok: bool)
    ensures ok <==> HasAttrs(n, names)
  {
    var i := 0;
    while i < |names|
      invariant 0 <= i <= |names|
      invariant forall k | 0 <= k < i :: names[k] in n.attrs
    {
      if Attr(n, names[i]).None? {
        return false;
      }
      i := i + 1;
    }
    return true;
  }

  const PhotoAttrs: seq<string> := ["farm", "server", "id", "secret"]
  const PageAttrs: seq<string> := ["owner", "id"]
  const IconAttrs: seq<string> := ["iconfarm", "iconserver", "owner"]

  /** The attributes each URL builder checks for. */
  lemma AttrListsChecked(n: Xml)
    ensures HasAttrs(n, PhotoAttrs) <==> HasPhotoAttrs(n)
    ensures HasAttrs(n, PageAttrs) <==> HasPageAttrs(n)
    ensures HasAttrs(n, IconAttrs) <==> HasIconAttrs(n)
  {
    assert PhotoAttrs[0] == "farm" && PhotoAttrs[1] == "server" && PhotoAttrs[2] == "id" && PhotoAttrs[3] == "secret";
    assert PageAttrs[0] == "owner" && PageAttrs[1] == "id";
    assert IconAttrs[0] == "iconfarm" && IconAttrs[1] == "iconserver" && IconAttrs[2] == "owner";
  }

  predicate HasPhotoAttrs(n: Xml)
  {
    "farm" in n.attrs && "server" in n.attrs && "id" in n.attrs && "secret" in n.attrs
  }

  predicate HasPageAttrs(n: Xml)
  {
    "owner" in n.attrs && "id" in n.attrs
  }

  predicate HasIconAttrs(n: Xml)
  {
    "iconfarm" in n.attrs && "iconserver" in n.attrs && "owner" in n.attrs
  }

  const PageBase := "http://www.flickr.com/photos/"
  const DefaultBuddyIcon := "http://www.flickr.com/images/buddyicon.jpg"

  /** construct_photo_url: the medium-size image on the photo's farm and
      server, NULL when one of farm, server, id and secret is missing. */
  function PhotoUrl(n: Xml): (r: Option<string>)
    ensures r.Some? <==> HasPhotoAttrs(n)
    ensures r.Some? ==> Strs.IsPrefix("http://farm" + n.attrs["farm"] + ".static.flickr.com/", r.value)
  {
    if HasPhotoAttrs(n) then
      var head := "http://farm" + n.attrs["farm"] + ".static.flickr.com/";
      var url := head + (n.attrs["server"] + "/" + n.attrs["id"] + "_" + n.attrs["secret"] + "_m.jpg");
      assert url[..|head|] == head;
      Some(url)
    else None
  }

  /** construct_photo_page_url: the owner's page of the photo, NULL when the
      owner or the id is missing. */
  function PageUrl(n: Xml): (r: Option<string>)
    ensures r.Some? <==> HasPageAttrs(n)
    ensures r.Some? ==> Strs.IsPrefix(PageBase, r.value)
  {
    if HasPageAttrs(n) then
      var url := PageBase + (n.attrs["owner"] + "/" + n.attrs["id"] + "/");
      assert url[..|PageBase|] == PageBase;
      Some(url)
    else None
  }

  /** The page URL, which is also the item's id, names the photo: two photos
      with the same page have the same owner and id, as long as owner names
      hold no '/'. */
  lemma PageUrlInjective(a: Xml, b: Xml)
    requires PageUrl(a).Some? && PageUrl(a) == PageUrl(b)
    requires "owner" in a.attrs && '/' !in a.attrs["owner"]
    requires "owner" in b.attrs && '/' !in b.attrs["owner"]
    ensures a.attrs["owner"] == b.attrs["owner"]
    ensures "id" in a.attrs && "id" in b.attrs && a.attrs["id"] == b.attrs["id"]
  {
    var oa, ia := a.attrs["owner"], a.attrs["id"];
    var ob, ib := b.attrs["owner"], b.attrs["id"];
    assert PageUrl(a).value == PageBase + ((oa + "/" + ia) + "/");
    assert PageUrl(b).value == PageBase + ((ob + "/" + ib) + "/");
    Strs.PrefixCancel(PageBase, (oa + "/" + ia) + "/", (ob + "/" + ib) + "/");
    Strs.SuffixCancel(oa + "/" + ia, ob + "/" + ib, "/");
    Strs.SeparatedCancel(oa, ia, ob, ib, '/');
  }

  /** construct_buddy_icon_url: the owner's icon on the icon farm and server;
      the default icon when iconfarm, iconserver or owner is missing, or when
      the icon server reads as 0 with atoi. */
  function BuddyIconUrl(n: Xml): (r: string)
    ensures r == DefaultBuddyIcon <==>
              !HasIconAttrs(n) || Strs.Atoi(n.attrs["iconserver"]) == 0
  {
    if !HasIconAttrs(n) then DefaultBuddyIcon
    else if Strs.Atoi(n.attrs["iconserver"]) == 0 then DefaultBuddyIcon
    else
      var url := "http://farm" + n.attrs["iconfarm"] + ".static.flickr.com/" + n.attrs["iconserver"] +
                 "/buddyicons/" + n.attrs["owner"] + ".jpg";
      assert url[7] == 'f' && DefaultBuddyIcon[7] == 'w';
      url
  }

  /** An icon server written as a number gives the default icon exactly when
      the number is 0. */
  lemma BuddyIconForServer(n: Xml, server: nat)
    requires HasIconAttrs(n) && n.attrs["iconserver"] == Strs.NatToDecimal(server)
    ensures BuddyIconUrl(n) == DefaultBuddyIcon <==> server == 0
  {
    Strs.AtoiDecimal(server);
  }

  /** The geotag extract_location accepts: an accuracy that does not read as
      0, and a latitude and a longitude that are present and not empty. */
  predicate Located(n: Xml)
  {
    "accuracy" in n.attrs && Strs.Atoi(n.attrs["accuracy"]) != 0 &&
    "latitude" in n.attrs && n.attrs["latitude"] != "" &&
    "longitude" in n.attrs && n.attrs["longitude"] != ""
  }

  /** extract_location: an item takes the photo's latitude and longitude
      together or not at all, and only from a located photo. */
  function ExtractLocation(n: Xml, props: map<string, string>): (r: map<string, string>)
    ensures !Located(n) ==> r == props
    ensures Located(n) ==> r == props["latitude" := n.attrs["latitude"]]["longitude" := n.attrs["longitude"]]
    ensures r == props || ("latitude" in r && "longitude" in r)
  {
    var acc := Attr(n, "accuracy");
    if acc.None? || Strs.Atoi(acc.value) == 0 then props
    else
      var lat := Attr(n, "latitude");
      var lon := Attr(n, "longitude");
      if lat.None? || lat.value == "" || lon.None? || lon.value == "" then props
      else props["latitude" := lat.value]["longitude" := lon.value]
  }

  /** The attributes every photo item is built from without crashing: the
      upload date atoi reads, and the owner and id that make the page URL,
      which is the item's id and its key in an item set. */
  predicate Complete(n: Xml)
  {
    "dateupload" in n.attrs && "owner" in n.attrs && "id" in n.attrs
  }

  /** The properties a photo item starts with: the page URL as its id and
      its url, the title, and the owner's id and user name, each only when
      the photo has it. */
  function PhotoProps(n: Xml): (p: map<string, string>)
    ensures ("id" in p <==> PageUrl(n).Some?) && ("url" in p <==> PageUrl(n).Some?)
    ensures PageUrl(n).Some? ==> p["id"] == PageUrl(n).value && p["url"] == PageUrl(n).value
    ensures ("title" in p <==> "title" in n.attrs) && ("title" in p ==> p["title"] == n.attrs["title"])
    ensures ("authorid" in p <==> "owner" in n.attrs) && ("authorid" in p ==> p["authorid"] == n.attrs["owner"])
    ensures ("author" in p <==> "username" in n.attrs) && ("author" in p ==> p["author"] == n.attrs["username"])
    ensures forall k | k in p :: k in {"id", "url", "title", "authorid", "author"}
  {
    var page := PageUrl(n);
    var p := Put(Put(map[], "id", page), "title", Attr(n, "title"));
    var p := Put(Put(p, "authorid", Attr(n, "owner")), "author", Attr(n, "username"));
    Put(p, "url", page)
  }

  /** A complete photo's properties with its upload date: atoi of
      dateupload, turned into a date string by the foreign makeDate. */
  function DatedProps(n: Xml, makeDate: int -> string): (p: map<string, string>)
    requires Complete(n)
    ensures "id" in p && p["id"] == PageUrl(n).value && "url" in p && p["url"] == p["id"]
    ensures "date" in p && p["date"] == makeDate(Strs.Atoi(n.attrs["dateupload"]))
    ensures "latitude" !in p && "longitude" !in p
  {
    assert HasPageAttrs(n);
    PhotoProps(n)["date" := makeDate(Strs.Atoi(n.attrs["dateupload"]))]
  }

  /** A thumbnail download of a URL that may be missing. */
  function Thumbnail(delaysReady: bool, url: Option<string>): seq<ImageFetch>
  {
    if url.Some? then [ImageFetch(delaysReady, "thumbnail", url.value)] else []
  }

  /** _flickr_item_from_from_photo_node (flickr.c): the photo's properties,
      the upload date (atoi of dateupload, turned into a date string by the
      foreign makeDate), the geotag, and two downloads: the thumbnail, which
      holds the item back, and the owner's buddy icon, which does not. */
  function PhotoItem(n: Xml, makeDate: int -> string): (d: Draft)
    requires Complete(n)
    ensures DraftId(d) == PageUrl(n).value && "url" in d.props && d.props["url"] == DraftId(d)
    ensures "date" in d.props && d.props["date"] == makeDate(Strs.Atoi(n.attrs["dateupload"]))
    ensures ("latitude" in d.props <==> Located(n)) && ("longitude" in d.props <==> Located(n))
    ensures d.fetches == Thumbnail(true, PhotoUrl(n)) + [ImageFetch(false, "authoricon", BuddyIconUrl(n))]
  {
    Draft(ExtractLocation(n, DatedProps(n, makeDate)), Thumbnail(true, PhotoUrl(n)) + [ImageFetch(false, "authoricon", BuddyIconUrl(n))])
  }

  /** The loop body of mojito-service-flickr.c's flickr_callback: the same
      properties, date and downloads, without the geotag.  mojito_item_put
      skips a NULL value, which on a new item is the same as leaving the key
      out, and its downloads do not hold the item back. */
  function MojitoPhotoItem(n: Xml, makeDate: int -> string): (d: Draft)
    requires Complete(n)
    ensures DraftId(d) == PageUrl(n).value && "url" in d.props && d.props["url"] == DraftId(d)
    ensures "date" in d.props && d.props["date"] == makeDate(Strs.Atoi(n.attrs["dateupload"]))
    ensures "latitude" !in d.props && "longitude" !in d.props
    ensures d.fetches == Thumbnail(false, PhotoUrl(n)) + [ImageFetch(false, "authoricon", BuddyIconUrl(n))]
  {
    Draft(DatedProps(n, makeDate), Thumbnail(false, PhotoUrl(n)) + [ImageFetch(false, "authoricon", BuddyIconUrl(n))])
  }

  /** Photos with different owners or ids make items with different ids. */
  lemma PhotoItemIdsDistinct(a: Xml, b: Xml, makeDate: int -> string)
    requires Complete(a) && Complete(b)
    requires '/' !in a.attrs["owner"] && '/' !in b.attrs["owner"]
    requires a.attrs["owner"] != b.attrs["owner"] || a.attrs["id"] != b.attrs["id"]
    ensures DraftId(PhotoItem(a, makeDate)) != DraftId(PhotoItem(b, makeDate))
  {
    assert HasPageAttrs(a) && HasPageAttrs(b);
    if PageUrl(a) == PageUrl(b) {
      PageUrlInjective(a, b);
    }
  }

  /** The photo nodes of a reply: the "photo" nodes under the first "photos"
      node; none when the reply did not parse or has no "photos". */
  function Photos(root: Option<Xml>): seq<Xml>
  {
    if root.None? then []
    else match Find(root.value, "photos")
      case None => []
      case Some(photos) => FindAll(photos, "photo")
  }

  /** Which of the two files a service object follows. */
  datatype Generation = Libsocialweb | Mojito

  const ContactsPhotos := "flickr.photos.getContactsPhotos"

  /** get_photos: the photos of the user's contacts; the later file asks for
      the geotags and at most 50 photos. */
  function PhotosCall(g: Generation): (r: Outgoing)
    ensures r.Rest? && r.endpoint == ContactsPhotos
  {
    match g
    case Libsocialweb => Rest("GET", ContactsPhotos, [("extras", "date_upload,icon_server,geo"), ("count", "50")])
    case Mojito => Rest("GET", ContactsPhotos, [("extras", "date_upload,icon_server")])
  }

  /** The item a photo node makes, for the file the service follows. */
  function ServiceItem(g: Generation, makeDate: int -> string): Xml -> Option<Draft>
  {
    n => if !Complete(n) then None
         else if g == Libsocialweb then Some(PhotoItem(n, makeDate))
         else Some(MojitoPhotoItem(n, makeDate))
  }

  /** The set one reply makes: each photo's item added in turn, replacing a
      member with its id (sw_set_add) or dropped in favour of it
      (mojito_set_add). */
  function ReplySet(g: Generation, root: Option<Xml>, makeDate: int -> string): map<string, Draft>
  {
    Collected(Photos(root), ServiceItem(g, makeDate), DraftId, {}, g == Libsocialweb)
  }

  /** Every photo of a reply has its page URL in the set, and every member
      of the set is the item of one of the photos. */
  lemma ReplySetCoversPhotos(g: Generation, root: Option<Xml>, makeDate: int -> string)
    requires forall k | 0 <= k < |Photos(root)| :: Complete(Photos(root)[k])
    ensures forall k | 0 <= k < |Photos(root)| ::
              PageUrl(Photos(root)[k]).Some? && PageUrl(Photos(root)[k]).value in ReplySet(g, root, makeDate)
    ensures forall id | id in ReplySet(g, root, makeDate) ::
              MadeBySome(Photos(root), ServiceItem(g, makeDate), ReplySet(g, root, makeDate)[id])
  {
    var ps := Photos(root);
    CollectedComplete(ps, ServiceItem(g, makeDate), DraftId, {}, g == Libsocialweb);
    CollectedSound(ps, ServiceItem(g, makeDate), DraftId, {}, g == Libsocialweb);
    forall k | 0 <= k < |ps|
      ensures PageUrl(ps[k]).Some? && PageUrl(ps[k]).value in ReplySet(g, root, makeDate)
    {
      assert Kept(ps[k], ServiceItem(g, makeDate), DraftId, {});
    }
  }

  /** A Flickr service object.  `guarded` selects the refresh guard as the
      comment in refresh describes it: a refresh in progress is marked, and
      the mark is cleared whenever that refresh ends.  The files as written
      never set the mark, which is `guarded == false`. */
  class FlickrService {
    const generation: Generation
    const guarded: bool
    /** The API key and secret of the proxy, once it exists. */
    var proxyKeys: Option<(string, string)>
    var running: bool
    var refreshing: bool
    /** The set a refresh fills (priv->set). */
    var items: map<string, Draft>
    /** The sets the refreshed signal carried; None for a NULL set. */
    var refreshed: seq<Option<map<string, Draft>>>
    /** user-changed signals emitted. */
    var userChanges: nat
    /** Token lookups started through the keyfob. */
    var tokenRequests: nat
    var sent: seq<Outgoing>

    /** Between callbacks the refresh set is empty (refresh_done empties it
        and only a reply fills it), and without the guard nothing is ever
        marked as refreshing. */
    ghost predicate Valid()
      reads this
    {
      items == map[] && (!guarded ==> !refreshing)
    }

    /** The init function: not running, not refreshing, an empty set.  The
        older file creates the proxy at once from the keystore's answer. */
    constructor (generation: Generation, guarded: bool, keys: Option<(string, string)>)
      ensures Valid() && this.generation == generation && this.guarded == guarded
      ensures !running && !refreshing && items == map[]
      ensures proxyKeys == (if generation == Mojito then keys else None)
      ensures refreshed == [] && userChanges == 0 && tokenRequests == 0 && sent == []
    {
      this.generation := generation;
      this.guarded := guarded;
      proxyKeys := if generation == Mojito then keys else None;
      running := false;
      refreshing := false;
      items := map[];
      refreshed := [];
      userChanges := 0;
      tokenRequests := 0;
      sent := [];
    }

    /** sw_service_flickr_initable: without a key and a secret it fails; an
        object with a proxy succeeds at once; otherwise the proxy is made and
        the refresh state reset. */
    method Init(keys: Option<(string, string)>) returns (ok: bool)
      requires Valid() && generation == Libsocialweb
      modifies this`proxyKeys, this`refreshing
      ensures Valid()
      ensures ok <==> keys.Some?
      ensures keys.None? || old(proxyKeys).Some? ==> proxyKeys == old(proxyKeys) && refreshing == old(refreshing)
      ensures keys.Some? && old(proxyKeys).None? ==> proxyKeys == keys && !refreshing
    {
      if keys.None? {
        return false;
      }
      if proxyKeys.Some? {
        return true;
      }
      proxyKeys := keys;
      refreshing := false;
      ok := true;
    }

    /** start: the service runs from now on. */
    method Start()
      modifies this`running
      ensures running
    {
      running := true;
    }

    /** refresh: nothing while the service is not running or a refresh is
        marked as in progress; otherwise the tokens are looked up, and with
        the guard the refresh is marked. */
    method Refresh()
      requires Valid()
      modifies this`refreshing, this`tokenRequests
      ensures Valid()
      ensures !running || old(refreshing) ==> tokenRequests == old(tokenRequests) && refreshing == old(refreshing)
      ensures running && !old(refreshing) ==> tokenRequests == old(tokenRequests) + 1 && refreshing == guarded
    {
      if !running {
        return;
      }
      if refreshing {
        return;
      }
      if guarded {
        refreshing := true;
      }
      tokenRequests := tokenRequests + 1;
    }

    /** got_tokens_cb: authorised, the photos are requested; otherwise a
        refreshed signal with a NULL set ends the refresh. */
    method GotTokens(authorised: bool)
      requires Valid()
      modifies this`sent, this`refreshed, this`refreshing
      ensures Valid()
      ensures authorised ==> sent == old(sent) + [PhotosCall(generation)] && refreshed == old(refreshed) &&
                             refreshing == old(refreshing)
      ensures !authorised ==> sent == old(sent) && refreshed == old(refreshed) + [None] && !refreshing
    {
      if authorised {
        sent := sent + [PhotosCall(generation)];
      } else {
        refreshed := refreshed + [None];
        if guarded {
          refreshing := false;
        }
      }
    }

    /** refresh_done: the set is emitted, the refresh is over, and the set is
        emptied for the next one. */
    method RefreshDone()
      modifies this`refreshed, this`refreshing, this`items
      ensures refreshed == old(refreshed) + [Some(old(items))]
      ensures !refreshing && items == map[]
    {
      refreshed := refreshed + [Some(items)];
      refreshing := false;
      items := map[];
    }

    /** flickr_callback: an error ends the callback (and, with the guard, the
        refresh); otherwise every photo's item joins the set, which
        refresh_done emits.  A reply that does not parse emits an empty set. */
    method PhotosReceived(error: bool, root: Option<Xml>, makeDate: int -> string)
      requires Valid()
      requires forall k | 0 <= k < |Photos(root)| :: Complete(Photos(root)[k])
      modifies this`items, this`refreshed, this`refreshing
      ensures Valid()
      ensures error ==> refreshed == old(refreshed) && !refreshing
      ensures !error ==> refreshed == old(refreshed) + [Some(ReplySet(generation, root, makeDate))] && !refreshing
    {
      if error {
        if guarded {
          refreshing := false;
        }
        return;
      }
      items := Collect(Photos(root), ServiceItem(generation, makeDate), DraftId, {}, generation == Libsocialweb);
      RefreshDone();
    }

    /** The user-changed signal. */
    method EmitUserChanged()
      modifies this`userChanges
      ensures userChanges == old(userChanges) + 1
    {
      userChanges := userChanges + 1;
    }
  }

  /** credentials_updated: every Flickr service object announces a user
      change and refreshes. */
  method CredentialsUpdated(services: seq<FlickrService>)
    requires forall i, j | 0 <= i < j < |services| :: services[i] != services[j]
    requires forall k | 0 <= k < |services| :: services[k].Valid()
    modifies set k | 0 <= k < |services| :: services[k]
    ensures forall k | 0 <= k < |services| :: services[k].Valid()
    ensures forall k | 0 <= k < |services| ::
              services[k].userChanges == old(services[k].userChanges) + 1 &&
              services[k].tokenRequests ==
                old(services[k].tokenRequests) + (if services[k].running && !old(services[k].refreshing) then 1 else 0)
  {
    var i := 0;
    while i < |services|
      invariant 0 <= i <= |services|
      invariant forall k | 0 <= k < |services| :: services[k].Valid()
      invariant forall k | 0 <= k < i ::
                  services[k].userChanges == old(services[k].userChanges) + 1 &&
                  services[k].tokenRequests ==
                    old(services[k].tokenRequests) + (if services[k].running && !old(services[k].refreshing) then 1 else 0)
      invariant forall k | i <= k < |services| ::
                  services[k].userChanges == old(services[k].userChanges) &&
                  services[k].tokenRequests == old(services[k].tokenRequests) &&
                  services[k].refreshing == old(services[k].refreshing)
      invariant forall k | 0 <= k < |services| :: services[k].running == old(services[k].running)
    {
      services[i].EmitUserChanged();
      services[i].Refresh();
      i := i + 1;
    }
  }

  /** As written, a refresh is never marked as in progress: two refreshes of
      a running service look the tokens up twice, and both replies are
      fetched and emitted. */
  method RefreshTwiceAsWritten(s: FlickrService)
    requires s.Valid() && s.running && !s.guarded
    modifies s
    ensures s.tokenRequests == old(s.tokenRequests) + 2
  {
    s.Refresh();
    s.Refresh();
  }

  /** With the guard, a refresh asked for while one is in progress is
      ignored. */
  method RefreshTwiceGuarded(s: FlickrService)
    requires s.Valid() && s.running && s.guarded && !s.refreshing
    modifies s
    ensures s.tokenRequests == old(s.tokenRequests) + 1 && s.refreshing
  {
    s.Refresh();
    s.Refresh();
  }

  /** With the guard, a refresh that ended without authorisation lets the
      next one through. */
  method RefreshAfterRefusal(s: FlickrService)
    requires s.Valid() && s.running && s.guarded && !s.refreshing
    modifies s
    ensures s.tokenRequests == old(s.tokenRequests) + 2
  {
    s.Refresh();
    s.GotTokens(false);
    s.Refresh();
  }

  /** With the guard, a refresh whose photos arrived lets the next one
      through. */
  method RefreshAfterPhotos(s: FlickrService, error: bool, root: Option<Xml>, makeDate: int -> string)
    requires s.Valid() && s.running && s.guarded && !s.refreshing
    requires forall k | 0 <= k < |Photos(root)| :: Complete(Photos(root)[k])
    modifies s
    ensures s.tokenRequests == old(s.tokenRequests) + 2
  {
    s.Refresh();
    s.GotTokens(true);
    s.PhotosReceived(error, root, makeDate);
    s.Refresh();
  }
}
