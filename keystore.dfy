/** The mojito key store (mojito-keystore.c): the API key, and for some
    services the secret, compiled into the daemon for each web service.  Which
    rows exist depends on the keys given at build time, so the table is
    built from those. */
module Keystore {
  import opened Wrappers

  datatype Keys = Keys(service: string, key: string, secret: Option<string>)

  /** The API keys given at build time; a service without one has no row. */
  datatype BuildKeys = BuildKeys(
    flickr: Option<(string, string)>,
    lastfm: Option<string>,
    myspace: Option<(string, string)>,
    twitter: Option<(string, string)>,
    digg: Option<string>)

  /** The keys[] table, in source order; lastfm and digg have no secret. */
  function Table(b: BuildKeys): seq<Keys>
  {
    (if b.flickr.Some? then [Keys("flickr", b.flickr.value.0, Some(b.flickr.value.1))] else [])
    + (if b.lastfm.Some? then [Keys("lastfm", b.lastfm.value, None)] else [])
    + (if b.myspace.Some? then [Keys("myspace", b.myspace.value.0, Some(b.myspace.value.1))] else [])
    + (if b.twitter.Some? then [Keys("twitter", b.twitter.value.0, Some(b.twitter.value.1))] else [])
    + (if b.digg.Some? then [Keys("digg", b.digg.value, None)] else [])
  }

  /** The first row for the service, if any. */
  function FirstRow(table: seq<Keys>, service: string): (r: Option<nat>)
    ensures r.Some? ==> r.value < |table| && table[r.value].service == service &&
                        forall k | 0 <= k < r.value :: table[k].service != service
    ensures r.None? ==> forall k | 0 <= k < |table| :: table[k].service != service
  {
    if table == [] then None
    else if table[0].service == service then Some(0)
    else match FirstRow(table[1..], service)
      case None => None
      case Some(i) => Some(i + 1)
  }

  /** mojito_keystore_get_key_secret: the scan stops at the first row for the
      service and hands back its key and (when the caller asks for it) its
      secret; with no row it fails and hands back NULL for both. */
  method GetKeySecret(table: seq<Keys>, service: string, wantSecret: bool)
    returns (found: bool, key: Option<string>, secret: Option<string>)
    ensures found <==> FirstRow(table, service).Some?
    ensures found ==> key == Some(table[FirstRow(table, service).value].key)
    ensures found && wantSecret ==> secret == table[FirstRow(table, service).value].secret
    ensures !found ==> key == None
    ensures !wantSecret || !found ==> secret == None
  {
    var i := 0;
    while i < |table|
      invariant 0 <= i <= |table|
      invariant forall k | 0 <= k < i :: table[k].service != service
    {
      if table[i].service == service {
        key := Some(table[i].key);
        secret := if wantSecret then table[i].secret else None;
        assert FirstRow(table, service) == Some(i) by {
          FirstRowAt(table, service, i);
        }
        return true, key, secret;
      }
      i := i + 1;
    }
    return false, None, None;
  }

  /** The row the scan stops at is the first one for the service. */
  lemma FirstRowAt(table: seq<Keys>, service: string, i: nat)
    requires i < |table| && table[i].service == service
    requires forall k | 0 <= k < i :: table[k].service != service
    ensures FirstRow(table, service) == Some(i)
  {
  }

  /** mojito_keystore_get_key: the key get_key_secret hands back, without the
      secret. */
  method GetKey(table: seq<Keys>, service: string) returns (key: Option<string>)
    ensures key == match FirstRow(table, service)
                   case None => None
                   case Some(i) => Some(table[i].key)
  {
    var found, k, s := GetKeySecret(table, service, false);
    key := k;
  }

  /** test_invalid: an unknown service has no key and no secret. */
  lemma UnknownService(b: BuildKeys)
    ensures FirstRow(Table(b), "foobar").None?
  {
    var t := Table(b);
    forall k | 0 <= k < |t|
      ensures t[k].service != "foobar"
    {
      assert t[k].service in {"flickr", "lastfm", "myspace", "twitter", "digg"};
    }
  }

  /** test_key_secret: with every key configured, each service finds its own
      row, and lastfm and digg have no secret. */
  lemma ConfiguredServices(b: BuildKeys)
    requires b.flickr.Some? && b.lastfm.Some? && b.myspace.Some? && b.twitter.Some? && b.digg.Some?
    ensures FirstRow(Table(b), "flickr") == Some(0)
    ensures FirstRow(Table(b), "lastfm") == Some(1) && Table(b)[1].secret == None
    ensures FirstRow(Table(b), "myspace") == Some(2)
    ensures FirstRow(Table(b), "twitter") == Some(3)
    ensures FirstRow(Table(b), "digg") == Some(4) && Table(b)[4].secret == None
  {
    var t := Table(b);
    assert |t| == 5;
    FirstRowAt(t, "flickr", 0);
    FirstRowAt(t, "lastfm", 1);
    FirstRowAt(t, "myspace", 2);
    FirstRowAt(t, "twitter", 3);
    FirstRowAt(t, "digg", 4);
  }
}
