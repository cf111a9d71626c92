# libsocialweb / Mojito core in Dafny

This project models the core of libsocialweb (and of Mojito, the earlier
version of the same daemon) and proves properties of that model.
libsocialweb is a session daemon that collects items (status updates,
photos, videos, tracks) and contacts from web services. It hands them to
desktop clients through views: a view opened on a service is kept up to date
by the service and re-published to the client as ItemsAdded, ItemsChanged
and ItemsRemoved batches.

The model covers:

- **The view engine.**
  - `SwSets` holds the id-keyed and identity sets.
  - `SwItems` and `SwContacts` hold items and contacts. Each has put, take, pending fetches and a readiness count.
  - `SwItemViews` and `SwContactViews` cover the item and contact views. Each has a current set, a pending set and a uid table. They batch changes into Added, Changed and Removed events, and set a view from a new set as removals, then updates, then additions.
  - `SwViews` is the aggregated view: newest-first selection with a per-service quota.
  - `SwCache` and `MojitoCache` are the cache.
  - `SwCore` is the core: parameter tables, the service cache, hidden items.
  - `CallLists` is the call list.
  - `ClientMonitors` is the client monitor.
  - `MojitoSets` and `MojitoItemViews` are the Mojito set and item view.
- **The client libraries.**
  - `ClientViews` mirrors a view as a uuid table.
  - `SwClientServices` is the client-side service handle.
- **The codecs.**
  - `Base64` and `Keyfob` cover key encoding.
  - `Keystore` is the key table.
  - `SwUtils` covers entity unescaping with UTF-8 output, operation ids and the parameter-dictionary hash.
  - Plurk has its base-36 ids.
  - `TwitterStream` covers the length-delimited frames of the Twitter stream.
  - `TwitterItemView` covers trimming of twitpic titles.
  - `Youtube` covers the YouTube ClientLogin reply.
- **The service adapters.** Each one turns replies into items or contacts and keeps the service's online, user and refresh state. There are adapters for Plurk, Twitter, Flickr, Facebook, Photobucket, YouTube, Last.fm, Sina, MySpace, Vimeo and Digg. `Adapters` and `AdapterViews` hold the parts they share.

Modelling conventions:

- An object whose fields the C code updates is a `class`, and its methods carry `modifies` clauses.
- Items and contacts held by views are values that carry a handle standing for the object's identity.
- A set made with sw_set_new compares by identity; the model keys it by the whole value, handle included. Two snapshots of one C object with different properties would be two members here, one in C. Every caller passes values taken from one state of the objects, so they agree.
- Emitted GObject and D-Bus signals are appended to an event log field.
- A timer firing, a reply arriving or a download finishing is a method call.
- A reply's payload is an argument of that call: a small XML or JSON tree, or `None` when parsing failed.
- Foreign code is passed in as a parameter. This covers the date parsers, MD5, the keyring's answer, key files and the network.

Where the C code has a defect the model logs it under "## Findings". For each defect it keeps the code as written beside the evident intent, proves a lemma that shows the difference, and uses the corrected half in the rest of the model. Members that run a corrected half are listed under "## Left out".

## Model

| member | source | states |
|---|---|---|
| GLists.Without | libsocialweb/sw-call-list.c:45-51 | the list with every link holding the object dropped: the object is no longer in it |
| GLists.RemoveFirstMultiset | libsocialweb/sw-call-list.c:61-67 | g_list_remove drops exactly one link holding the object when there is one, and leaves the list alone otherwise |
| GLists.RemoveFirstKeepsOthers | libsocialweb/sw-call-list.c:61-67 | g_list_remove keeps every other object in its order |
| GLists.WithoutAbsent | libsocialweb/sw-call-list.c:45-51 | dropping an object the list does not hold changes nothing |
| GLists.WithoutMultiset | libsocialweb/sw-call-list.c:45-51 | dropping every link of an object keeps every copy of every other object |
| CallLists.ProxyCall.Cancel | libsocialweb/sw-call-list.c:81 | rest_proxy_call_cancel marks the call cancelled |
| CallLists.CallList.constructor | libsocialweb/sw-call-list.c:28-36 | a new list is empty and watches no call |
| CallLists.CallList.Add | libsocialweb/sw-call-list.c:53-59 | the call is put at the head and watched once more; the list is no longer empty |
| CallLists.CallList.Remove | libsocialweb/sw-call-list.c:61-67 | one weak reference and one link holding the call go; every other call stays, in order |
| CallLists.CallList.CallDestroyed | libsocialweb/sw-call-list.c:45-51 | a destroyed call's notifications drop every link holding it and keep the other calls in order |
| CallLists.CallList.CancelAll | libsocialweb/sw-call-list.c:75-85 | the list ends empty with no weak reference left, and every call it held was cancelled |
| CallLists.CallList.Free | libsocialweb/sw-call-list.c:38-43 | freeing cancels every call the list held and leaves nothing watched |
| Strs.DecimalRoundTrip | services/twitter/twitter-item-stream.c:251-252 | "%d" reads back every count printed in decimal: the digits are non-empty and their value is the count |
| Strs.DecimalInjective | libsocialweb/sw-item-view.c:174-175 | distinct counters print as distinct decimals, so "%d" paths from distinct counters differ |
| Strs.IntDecimalInjective | services/twitter/twitter.c:104 | distinct integers, of any sign, print as distinct decimals |
| Strs.IndexOf | services/twitter/twitter-item-stream.c:254-256 | the first position holding the character, with none before it; none when the string lacks it |
| Strs.SplitFirst | libsocialweb/sw-core.c:102 | g_strsplit with limit 2: the part before the first separator and the rest, or the whole string when it has no separator |
| Strs.Split | libsocialweb/sw-core.c:99 | g_strsplit with no limit: no piece holds the separator, and a non-empty string gives at least one piece |
| Strs.JoinSplitPieces | libsocialweb/sw-core.c:99 | joining the pieces with the separator restores the string |
| Strs.ReplaceChar | services/twitter/twitter-item-stream.c:333 | g_strdelimit: every occurrence of one character is replaced and every other character kept, length unchanged |
| Strs.AtoiDecimal | services/flickr/flickr.c:142 | atoi reads back every decimal a natural number prints as |
| Strs.FindSubSpec | services/twitter/twitter-item-stream.c:290 | strstr finds the first occurrence of the needle, and finds one whenever there is one |
| Strs.SplitMax | services/facebook/facebook-contact-view.c:201 | g_strsplit with a limit gives between one and limit pieces |
| Strs.SplitMaxJoin | services/facebook/facebook-contact-view.c:201 | joining the limited split's pieces with the delimiter gives the string back |
| Strs.SplitMaxPieces | services/facebook/facebook-contact-view.c:201 | no piece but the last holds the delimiter, and the last holds it only when the limit was reached |
| Adapters.AsObject | services/twitter/twitter-item-stream.c:155 | an object node yields its members and any other node or a missing one yields NULL |
| Adapters.Elements | services/myspace/myspace-item-view.c:312-315 | an array node yields its elements in order and anything else yields no element |
| Adapters.Member | services/myspace/myspace-item-view.c:230 | a member node is found exactly when the object holds the name |
| Adapters.StringMember | services/twitter/twitter-item-stream.c:165-191 | a string is returned only when the member exists and holds that string |
| Adapters.ObjectMember | services/twitter/twitter-item-stream.c:156-160 | an object is returned exactly when the member exists and is an object |
| Adapters.Attr | services/photobucket/photobucket.c:437-439 | an attribute value is returned exactly when the node carries the key |
| Adapters.ChildrenNamed | services/photobucket/photobucket.c:542-550 | the `next` chain holds only direct children with the tag, and is empty exactly when no child has the tag |
| Adapters.FindAll | services/photobucket/photobucket.c:539-550 | every node on the chain that a search returns carries the searched tag |
| Adapters.Find | services/myspace/myspace.c:162-166 | a found node carries the tag, and nothing is found exactly when no node below the start has it |
| Adapters.FindPrefersChild | services/photobucket/photobucket.c:539-542 | the first direct child with the tag is found before any deeper node |
| Adapters.MapEach | services/photobucket/photobucket.c:544-550 | the loop produces one entry per album, in order, each the conversion of its album |
| Adapters.StrConcat | services/myspace/myspace.c:162-166 | the joined string starts with the first piece, and is empty when the first piece is NULL |
| Adapters.StrConcatPair | services/myspace/myspace.c:162-166 | a prefix joined with a NULL piece is the prefix alone, otherwise the two joined |
| Adapters.XmlChildValue | services/sina/sina.c:187-204 | the text of the found node is returned exactly when the node exists and its text is non-empty |
| Adapters.Put | libsocialweb/sw-item.c:128-143 | a value is stored under the key, a NULL value removes the key, and every other key is unchanged |
| Adapters.AddReplacing | libsocialweb/sw-set.c:101-109 | the item's id is added, the new item replaces an old one with that id, and every other member is kept |
| Adapters.AddKeeping | mojito/mojito-set.c:60-67 | the item's id is added, an item whose id is already held is dropped, and every old member is kept |
| Adapters.ConfiguredUser | services/digg/digg.c:227-233 | a user is set exactly when the configured value is present and non-empty, and then it is that value |
| AdapterViews.CollectedSound | services/sina/sina-item-view.c:242-285 | every member of the populated set is an entry some record made, filed under its own id, and no member's id is banned |
| AdapterViews.CollectedComplete | services/sina/sina-item-view.c:242-285 | every record whose entry exists and is not banned has its id in the populated set |
| AdapterViews.CollectedItems | services/sina/sina-item-view.c:280-282 | one more record adds its item with sw_set_add (replacing) or mojito_set_add (keeping) unless it is banned |
| AdapterViews.Collect | services/sina/sina-item-view.c:242-285 | the populate loop builds exactly the set the specification function defines over the record list |
| AdapterViews.CollectInto | services/sina/sina-item-view.c:242-285 | the populate loop over a set that already holds items yields the old set overridden by the new records' items |
| AdapterViews.CheckQueryValidity | services/sina/sina.c:392-404 | the query is accepted exactly when it is one of the service's valid queries |
| AdapterViews.PollingView.constructor | services/sina/sina-item-view.c:580-584 | a new view has no timer, no refresh, nothing published, saved or hidden |
| AdapterViews.PollingView.Start | services/sina/sina-item-view.c:428-443 | a started view changes nothing; otherwise the timer is armed, the cached set is published when there is one, and one refresh goes out |
| AdapterViews.PollingView.Stop | services/sina/sina-item-view.c:445-457 | afterwards no timer is armed |
| AdapterViews.PollingView.Refresh | services/sina/sina-item-view.c:459-463 | exactly one more request goes out |
| AdapterViews.PollingView.CapabilitiesChanged | services/sina/sina-item-view.c:489-513 | valid credentials refresh once and leave the timer armed; anything else disarms it without a refresh |
| AdapterViews.PollingView.UserChanged | services/sina/sina-item-view.c:473-487 | the view is set from an empty set and the cache is dropped once |
| AdapterViews.PollingView.ItemHidden | services/sina/sina-item-view.c:465-471 | the hidden id is handed to the view, once |
| AdapterViews.PollingView.Publish | services/sina/sina-item-view.c:315-322 | the new set is both shown by the view and saved to the cache |
| AdapterViews.StartTwice | services/sina/sina-item-view.c:432-435 | starting twice arms the timer and sends at most one refresh and one cached set |
| AdapterViews.CapabilitiesTwice | services/sina/sina-item-view.c:489-513 | the last capability change alone decides whether the timer runs |
| Base64.Digit | mojito-keyfob/mojito-keyfob.c:57-58 | an encoding digit is never the pad, a blank or a NUL |
| Base64.RankOfDigit | mojito-keyfob/mojito-keyfob.c:38-39 | the decoder reads each digit of the alphabet back as its own value |
| Base64.EncodeOne | mojito-keyfob/mojito-keyfob.c:57-58 | a final single byte becomes two digits and two pads |
| Base64.EncodeTwo | mojito-keyfob/mojito-keyfob.c:57-58 | a final pair of bytes becomes three digits and one pad |
| Base64.EncodeThree | mojito-keyfob/mojito-keyfob.c:57-58 | three bytes become four digits and no pad |
| Base64.Encode | mojito-keyfob/mojito-keyfob.c:57-58 | the encoding holds only digits and pads the decoder reads |
| Base64.Significant | mojito-keyfob/mojito-keyfob.c:38-39 | the decoder keeps only characters it reads, never more than it was given |
| Base64.DecodeGroup | mojito-keyfob/mojito-keyfob.c:38-39 | a group of four characters yields one to three bytes |
| Base64.DecodeEncode | mojito-keyfob/mojito-keyfob.c:38-58 | decoding what was encoded gives back every byte string unchanged |
| Base64.Bytes | mojito-keyfob/mojito-keyfob.c:57-58 | the bytes of a string of 8-bit characters keep its length and each character's code |
| ClientMonitors.ClientMonitor.constructor | libsocialweb/client-monitor.c:51-73 | a new monitor tracks no sender |
| ClientMonitors.ClientMonitor.Lookup | libsocialweb/client-monitor.c:87 | an unknown sender has the empty list |
| ClientMonitors.ClientMonitor.Add | libsocialweb/client-monitor.c:77-90 | the object goes to the head of its sender's list and no other sender's list changes |
| ClientMonitors.ClientMonitor.Remove | libsocialweb/client-monitor.c:94-103 | exactly one link holding the object leaves the sender's list, and the entry is stored back even for an unknown sender |
| ClientMonitors.ClientMonitor.NameOwnerChanged | libsocialweb/client-monitor.c:28-48 | a disconnect drops the sender's entry and releases one reference per link; any other change leaves the table alone |
| ClientMonitors.AddThenRemove | libsocialweb/client-monitor.c:77-103 | adding an object and removing it again restores the sender's list |
| ClientViews.RemoveAll | libsocialweb-client/sw-client-item-view.c:248-265 | removing a batch never adds an entry and leaves the kept entries' contents alone |
| ClientViews.Reported | libsocialweb-client/sw-client-item-view.c:259-263 | a removal batch reports only uuids the table held |
| ClientViews.KnownUuids | libsocialweb-client/sw-client-item-view.c:222-228 | a change batch lists only uuids the table holds |
| ClientViews.AddAllHolds | libsocialweb-client/sw-client-item-view.c:179-192 | an added batch leaves the table holding exactly the old uuids and the batch's, and the others keep their contents |
| ClientViews.AddAllLastWins | libsocialweb-client/sw-client-item-view.c:187-189 | the last payload a batch carries for a uuid is what the uuid holds afterwards |
| ClientViews.ChangeKnownKeys | libsocialweb-client/sw-client-item-view.c:211-229 | a guarded change batch neither adds nor drops an entry, and entries it does not mention keep their contents |
| ClientViews.ChangeKnownIsAddAll | libsocialweb-client/sw-client-item-view.c:211-229 | on a batch of known uuids the guarded change handler and the re-inserting one give the same table |
| ClientViews.RemoveAllIsDifference | libsocialweb-client/sw-client-item-view.c:248-265 | a removal batch drops exactly its uuids |
| ClientViews.ReportedOnce | libsocialweb-client/sw-client-item-view.c:256-264 | a removal batch reports each held and listed uuid exactly once, and nothing else |
| ClientViews.AddThenRemove | libsocialweb-client/sw-client-item-view.c:169-272 | removing the uuids of a batch just added leaves the table without them |
| ClientViews.ClientEntry.constructor | libsocialweb-client/sw-client-item-view.c:158-167 | a new entry holds the payload (likewise _sw_contact_from_value_array, libsocialweb-client/sw-client-contact-view.c:159-167) |
| ClientViews.ClientEntry.UpdateFrom | libsocialweb-client/sw-client-item-view.c:127-156 | every field of the entry takes the payload's value (likewise for a contact, whose properties are a list of strings per key: libsocialweb-client/sw-client-contact-view.c:128-157) |
| ClientViews.InsertNewestFirst | libsocialweb-client/sw-client-view.c:503-515 | inserting an entry into a newest-first list keeps it newest first and adds exactly that entry |
| ClientViews.InsertedNewestFirst | libsocialweb-client/sw-client-view.c:503-515 | putting an entry after every entry at least as new and before the older ones keeps the list newest first |
| ClientViews.ClientView.constructor | libsocialweb-client/sw-client-item-view.c:425-435 | a new mirror holds nothing and has emitted nothing |
| ClientViews.ClientView.InsertAll | libsocialweb-client/sw-client-item-view.c:179-192 | the table afterwards is the old table with every payload inserted under its uuid in order |
| ClientViews.ClientView.ItemsAdded | libsocialweb-client/sw-client-item-view.c:169-199 | every payload is inserted and exactly one ItemsAdded emission carries the batch in payload order (likewise ContactsAdded: libsocialweb-client/sw-client-contact-view.c:170-200) |
| ClientViews.ClientView.ItemsReplaced | mojito-client/mojito-client-view.c:174-204 | a change re-inserts each payload, adding unknown uuids, and is emitted once |
| ClientViews.ClientView.ItemsChanged | libsocialweb-client/sw-client-item-view.c:201-236 | known uuids are overwritten in place, unknown ones skipped, and the emission lists the known entries' new contents (likewise ContactsChanged: libsocialweb-client/sw-client-contact-view.c:202-237) |
| ClientViews.ClientView.UpdateKnown | libsocialweb-client/sw-client-item-view.c:211-229 | the guarded loop updates exactly the known entries and lists them in batch order |
| ClientViews.ClientView.ItemsChangedUnchecked | libsocialweb-client/sw-client-view.c:205-235 | every uuid's entry is overwritten in place and the emission lists all of them |
| ClientViews.ClientView.UpdateAll | libsocialweb-client/sw-client-view.c:215-228 | the unguarded loop updates every listed entry and lists them in batch order |
| ClientViews.ClientView.UpdateEntry | libsocialweb-client/sw-client-item-view.c:224 | the entry under the payload's uuid takes the payload and no other entry changes |
| ClientViews.ClientView.GetSortedItems | libsocialweb-client/sw-client-view.c:517-527 | every entry of the table appears once and the list is newest first |
| ClientViews.ClientView.ItemsRemoved | libsocialweb-client/sw-client-item-view.c:238-272 | the listed uuids leave the table and one emission carries the removed entries' contents (likewise ContactsRemoved: libsocialweb-client/sw-client-contact-view.c:239-273) |
| ClientViews.ClientView.DropListed | libsocialweb-client/sw-client-item-view.c:248-265 | the loop drops the listed uuids and lists each held one once, with its old contents |
| ClientViews.ClientView.DropOne | libsocialweb-client/sw-client-item-view.c:262-263 | the uuid's entry is taken with its contents and the uuid leaves the table |
| Digg.CallUrl | services/digg/digg.c:61 | the request URL is the proxy's format with the user and the sub-request bound in |
| Digg.CallAsWritten | services/digg/digg.c:53-97 | as written, the parsed root is always returned, and it has been released exactly when it exists and is not "stories" |
| Digg.ErrorRootUsedAfterRelease | services/digg/digg.c:84-96 | an "error" reply makes the written call return a released root, while the intended call returns NULL |
| Digg.Call | services/digg/digg.c:83-96 | a root is returned exactly when it is a "stories" root, and nothing returned has been released |
| Digg.ItemIdsDistinct | services/digg/digg.c:128-133 | stories with different ids get different item ids under one prefix |
| Digg.StoryProps | services/digg/digg.c:119-148 | the item holds at most id, url, title, content and date; the id is present exactly when the story has one, and the date is the converted submit date |
| Digg.EntryItem | services/digg/digg.c:150-156 | the item carries the story's id and title, the author's full name and user name, and the story's downloads |
| Digg.SubmissionEntries | services/digg/digg.c:191-197 | one entry per submitted story, in order, each without a prefix |
| Digg.FriendEntries | services/digg/digg.c:158-174 | every entry is the story by a friend, under a prefix that starts with the given prefix and an underscore |
| Digg.AllFriendEntries | services/digg/digg.c:202-212 | every entry from commented or dugg stories has an author and a prefix starting with the given prefix and an underscore |
| Digg.PrefixedIdsDiffer | services/digg/digg.c:128-131 | ids under a "comment_" prefix never equal ids under a "digg_" prefix |
| Digg.CommentedAndDuggDistinct | services/digg/digg.c:200-212 | an item from a commented story and one from a dugg story never share an id |
| Digg.RefreshSetCoversEntries | services/digg/digg.c:187-216 | every story of a refresh has an item in the emitted set, and every member of the set is the item of one of them |
| Digg.DiggService.constructor | services/digg/digg.c:295-319 | a new service is not running and has no user |
| Digg.DiggService.Start | services/digg/digg.c:111-117 | the service runs afterwards |
| Digg.DiggService.Refresh | services/digg/digg.c:177-217 | nothing happens unless the service runs with a user; otherwise the three calls go out in turn and the set of all their stories is emitted once |
| Digg.DiggService.UserChanged | services/digg/digg.c:219-244 | the configured user is taken; an unchanged user does nothing, no user emits a NULL set, and a new user on a running service refreshes |
| Digg.UserChangedTwice | services/digg/digg.c:235 | configuring the same user a second time emits nothing more |
| Facebook.DynamicCaps | services/facebook/facebook.c:114-137 | no capability without a user; the full set for a user online; only "configured" for a user offline |
| Facebook.CapsMeaning | services/facebook/facebook.c:114-137 | valid credentials, status updates and avatars are offered exactly when a user is known and the service is online, and "configured" exactly when a user is known |
| Facebook.ExtractedUserInfo | services/facebook/facebook.c:154-174 | a user is read exactly when the object has both an id and a name; otherwise every field is cleared; the id, name and link come from the object |
| Facebook.UserInfoConsistent | services/facebook/facebook.c:154-174 | the user fields are all set or all cleared, the picture is the square picture of that very id, and equal pictures mean equal ids |
| Facebook.InitVerdictAsWritten | services/facebook/facebook.c:336-428 | as written, success happens exactly when already initialised or with a key and a complete keys file; a missing key sets the no-keys error |
| Facebook.IncompleteKeysFileSetsNoError | services/facebook/facebook.c:388-400 | a keys file without its base URI makes the written initable fail with no error set |
| Facebook.InitVerdict | services/facebook/facebook.c:336-428 | the intended initable succeeds in the same cases, keeps every error the written one sets, and fails exactly when it reports an error |
| Facebook.UploadFields | services/facebook/facebook.c:614-624 | one parameter per extra field with its value kept; a photo's "title" is renamed "message" and a video's fields are passed unchanged |
| Facebook.AddUploadFields | services/facebook/facebook.c:614-624 | the loop adds exactly the renamed fields, in walking order |
| Facebook.UploadCall | services/facebook/facebook.c:599-636 | a photo is posted to "me/photos" with its renamed fields; a video goes to the video upload method with the access token and JSON format before its fields |
| Facebook.FacebookService.constructor | services/facebook/facebook.c:325-333 | a new service is not initialised, offline, without a user and has sent nothing |
| Facebook.FacebookService.Init | services/facebook/facebook.c:336-428 | the outcome is the intended verdict; on success the proxies come from the keys file and the service goes online when the machine is; otherwise nothing changes |
| Facebook.FacebookService.GoOnline | services/facebook/facebook.c:228-243 | the service is online and one token request goes out |
| Facebook.FacebookService.GoOffline | services/facebook/facebook.c:228-243 | the service is offline, the capabilities of the old user offline are emitted, and then the user id is cleared |
| Facebook.FacebookService.OnlineNotify | services/facebook/facebook.c:228-243 | going online requests a token and keeps the user; going offline emits the old user's offline capabilities and clears the user |
| Facebook.FacebookService.GotTokens | services/facebook/facebook.c:203-220 | an authorised proxy asks for the "me" object once, otherwise nothing is sent |
| Facebook.FacebookService.ExtractUserInfo | services/facebook/facebook.c:154-174 | the service's user fields become the extracted user information, and success means a user was read |
| Facebook.FacebookService.GotUserInfo | services/facebook/facebook.c:176-201 | a failed or erroneous reply changes nothing; otherwise the user is read and the capabilities emitted |
| Facebook.FacebookService.Reconnect | services/facebook/facebook.c:245-262 | the service goes offline and online again with one token request, the picture and user cleared, then user-changed and empty capabilities are emitted |
| Facebook.FacebookService.RequestAvatar | services/facebook/facebook.c:486-499 | the square picture is downloaded exactly when it is known |
| Facebook.FacebookService.AvatarDownloaded | services/facebook/facebook.c:475-484 | the downloaded file's path is announced once |
| Facebook.FacebookService.UpdateStatus | services/facebook/facebook.c:528-552 | without a proxy nothing is sent; otherwise the message is posted to "me/feed" |
| Facebook.FacebookService.StatusReplied | services/facebook/facebook.c:511-526 | the status-updated signal reports whether the call succeeded |
| Facebook.FacebookService.Upload | services/facebook/facebook.c:564-650 | without a proxy -1 and no error; an unreadable file -1 and an error; otherwise the upload call is sent and the next operation id returned |
| Facebook.FacebookService.UploadReplied | services/facebook/facebook.c:652-667 | a failed upload reports -1 with the error's message and a successful one 100 with an empty message |
| Facebook.CredentialsUpdated | services/facebook/facebook.c:264-271 | when the machine is online every Facebook service reconnects; otherwise none changes |
| Facebook.AvatarAfterOffline | services/facebook/facebook.c:228-243 | after going offline the last user's picture is still downloaded on request although the capabilities no longer offer an avatar |
| FacebookUtil.ChildValue | services/facebook/facebook-util.c:133-171 | a copy is returned exactly when the node is an object whose member holds a non-empty string, and it is that string |
| FacebookUtil.ErrorMessage | services/facebook/facebook-util.c:104-114 | an error message is found only in a root object with an "error" member, and it is never empty |
| FacebookUtil.JsonFromCall | services/facebook/facebook-util.c:46-126 | a root is returned exactly for a 2xx status, a parsed payload and no error message; each failure gives its own error, checked in order |
| FacebookUtil.EmptyErrorMessageAccepted | services/facebook/facebook-util.c:112-113 | an error object with an empty message is not recognised, and the reply comes back as a root |
| FacebookUtil.PictureUrl | services/facebook/facebook-util.c:32-44 | the picture address starts with the proxy base, the object and a slash |
| FacebookUtil.PictureUrlInjective | services/facebook/facebook-util.c:32-44 | on one proxy and one size, different objects (ids without '/') have different picture addresses |
| FacebookViews.CommentLink | services/facebook/facebook-item-view.c:74-113 | a link found among the actions is never empty |
| FacebookViews.CommentLinkIsFirst | services/facebook/facebook-item-view.c:74-113 | the link found is the first "Comment" action's |
| FacebookViews.CommentLinkAbsent | services/facebook/facebook-item-view.c:74-113 | without a "Comment" action no link is found |
| FacebookViews.StatusLink | services/facebook/facebook-item-view.c:64-120 | the post's own link, failing that its first comment link, failing that the home page; never empty |
| FacebookViews.FindStatusLink | services/facebook/facebook-item-view.c:64-120 | the loop over the actions returns exactly the address the specification function gives |
| FacebookViews.FindAddressee | services/facebook/facebook-item-view.c:122-280 | the recipient loop reports true exactly when the post is addressed to the signed-in user |
| FacebookViews.StatusItem | services/facebook/facebook-item-view.c:122-280 | an item is made exactly for a postable post, with id "facebook-" and the post id, its time, message, author, address and downloads |
| FacebookViews.StatusIdsDistinct | services/facebook/facebook-item-view.c:122-280 | posts with different ids make items with different ids |
| FacebookViews.AddressedPostsNeedUser | services/facebook/facebook-item-view.c:122-280 | a post with recipients makes no item while no user is signed in |
| FacebookViews.StatusSet | services/facebook/facebook-item-view.c:282-324 | a set is made exactly when the reply is an object with a "data" array |
| FacebookViews.StatusSetFromPosts | services/facebook/facebook-item-view.c:282-324 | every member is the item of one of the reply's posts, and every postable post's id is in the set |
| FacebookViews.StatusEndpoint | services/facebook/facebook-item-view.c:379-383 | "own" reads "me/feed", "feed" and "friends-only" read "me/home", and any other query nothing |
| FacebookViews.StatusRequest | services/facebook/facebook-item-view.c:366-394 | a request goes out exactly for a known query, as a GET of its endpoint |
| FacebookViews.PutEach | libsocialweb/sw-contact.c:165-191 | the values are appended in order under the key and every other key is unchanged |
| FacebookViews.PutEachValue | services/facebook/facebook-contact-view.c:202-205 | the loop appends exactly the website pieces under "url" |
| FacebookViews.PutFrom | services/facebook/facebook-contact-view.c:125-136 | the member's non-empty value is appended under the key and nothing else changes; a missing value changes nothing |
| FacebookViews.Websites | services/facebook/facebook-contact-view.c:199-201 | at most ten pieces, which joined with "\r\n" give back the website |
| FacebookViews.FriendBase | services/facebook/facebook-contact-view.c:156-194 | the contact holds exactly id "facebook-" and the friend's id, its name and its update time |
| FacebookViews.FriendGender | services/facebook/facebook-contact-view.c:197 | the required properties are kept and "x-gender" is set exactly when the friend has a gender |
| FacebookViews.WithUrls | services/facebook/facebook-contact-view.c:198-208 | "url" holds the profile link when there is one and then the website pieces, and no other key changes |
| FacebookViews.FriendNames | services/facebook/facebook-contact-view.c:210-216 | the profile link, given name and family name are each set exactly when the friend has them, and no other key changes |
| FacebookViews.FriendPropsRequired | services/facebook/facebook-contact-view.c:172-194 | a contact keeps id, name and date and has no property besides them and the optional ones |
| FacebookViews.FriendPropsOptional | services/facebook/facebook-contact-view.c:197-216 | each optional property is set exactly when the friend has a non-empty value for it |
| FacebookViews.FriendContact | services/facebook/facebook-contact-view.c:138-219 | a contact is made exactly for a friend with id, name and update time, with its properties and the download of its square picture |
| FacebookViews.FriendWebsiteRecoverable | services/facebook/facebook-contact-view.c:198-208 | after the profile link, the "url" values are at most ten pieces that joined give back the website |
| FacebookViews.FriendSet | services/facebook/facebook-contact-view.c:221-266 | a set is made exactly when the reply is an object with a "data" array |
| FacebookViews.FriendSetFromFriends | services/facebook/facebook-contact-view.c:221-266 | every member is one of the reply's friends filed under its id, and every befriendable friend is in the set |
| FacebookViews.FriendsRequest | services/facebook/facebook-contact-view.c:308-339 | only "people" sends a request, a GET of "me/friends" with the listed fields |
| FacebookViews.FacebookView.constructor | services/facebook/facebook-item-view.c:448-462 | a new view is stopped and has sent, published, saved and hidden nothing |
| FacebookViews.FacebookView.Fetch | services/facebook/facebook-item-view.c:366-394 | the query's request is sent exactly when a user is signed in, the view runs and the query is known |
| FacebookViews.FacebookView.Start | services/facebook/facebook-item-view.c:552-572 | a running view changes nothing; otherwise it runs, publishes the cached set if any and fetches |
| FacebookViews.FacebookView.Stop | services/facebook/facebook-item-view.c:574-591 | the view is stopped afterwards |
| FacebookViews.FacebookView.Refresh | services/facebook/facebook-item-view.c:593-599 | one fetch, under the same conditions as any fetch |
| FacebookViews.FacebookView.CapabilitiesChanged | services/facebook/facebook-item-view.c:437-446 | valid credentials make a fetch; anything else leaves the view alone |
| FacebookViews.FacebookView.UserChanged | services/facebook/facebook-item-view.c:422-435 | the view is emptied and the cache dropped once |
| FacebookViews.FacebookView.ItemHidden | services/facebook/facebook-item-view.c:414-420 | the hidden id is handed to the view once |
| FacebookViews.FacebookView.Publish | services/facebook/facebook-item-view.c:354-360 | the new set is both shown and saved to the cache |
| FacebookViews.NewItemView | services/facebook/facebook-item-view.c:448-462 | a new item view holds the service and the query's request, stopped and with nothing sent |
| FacebookViews.NewContactView | services/facebook/facebook-contact-view.c:386-398 | a new contact view holds the service and the query's request, stopped and with nothing sent |
| FacebookViews.StatusReceived | services/facebook/facebook-item-view.c:326-364 | a failed, erroneous or data-less reply changes nothing; otherwise the status set is published and saved |
| FacebookViews.FriendsReceived | services/facebook/facebook-contact-view.c:268-306 | a failed, erroneous or data-less reply changes nothing; otherwise the contact set is published and saved |
| FacebookViews.UnknownQuerySendsNothing | services/facebook/facebook-item-view.c:379-388 | a view whose query has no request never sends anything |
| Flickr.CheckAttrs | services/flickr/flickr.c:51-69 | the check passes exactly when the node carries every listed attribute |
| Flickr.AttrListsChecked | services/flickr/flickr.c:72-109 | each URL builder's attribute list is checked exactly when the node has those attributes |
| Flickr.PhotoUrl | services/flickr/flickr.c:72-83 | a photo URL is built exactly when farm, server, id and secret are present, and it names the photo's farm |
| Flickr.PageUrl | services/flickr/flickr.c:85-94 | a page URL is built exactly when owner and id are present, and it starts with the photos site |
| Flickr.PageUrlInjective | services/flickr/flickr.c:85-94 | two photos with the same page have the same owner and id, for owners without '/' |
| Flickr.BuddyIconUrl | services/flickr/flickr.c:96-109 | the default icon is given exactly when an icon attribute is missing or the icon server reads as 0 |
| Flickr.BuddyIconForServer | services/flickr/flickr.c:96-109 | for a server written as a number, the default icon is given exactly when that number is 0 |
| Flickr.ExtractLocation | services/flickr/flickr.c:133-154 | latitude and longitude are both set from a located photo, and nothing changes otherwise |
| Flickr.PhotoProps | services/flickr/flickr.c:167-173 | the page URL is both the id and the url, and title, owner and user name are each copied exactly when present |
| Flickr.DatedProps | services/flickr/flickr.c:167-176 | a complete photo's properties carry the page URL as id and url and its upload date |
| Flickr.PhotoItem | services/flickr/flickr.c:156-189 | the item has the page URL as id and url, the upload date, a geotag exactly for a located photo, and the held-back thumbnail and the buddy icon downloads |
| Flickr.MojitoPhotoItem | services/flickr/mojito-service-flickr.c:128-188 | the older callback's item has the same id, url and date, no geotag, and downloads that do not hold it back |
| Flickr.PhotoItemIdsDistinct | services/flickr/flickr.c:85-94 | photos with different owners or ids make items with different ids |
| Flickr.PhotosCall | services/flickr/flickr.c:230-245 | the photos request asks for the user's contacts' photos |
| Flickr.ReplySetCoversPhotos | services/flickr/flickr.c:192-228 | every photo of a reply has its page in the set, and every member is the item of one of the photos |
| Flickr.FlickrService.constructor | services/flickr/flickr.c:384-389 | a new service is not running, not refreshing and has an empty set; the older one makes its proxy at once |
| Flickr.FlickrService.Init | services/flickr/flickr.c:330-357 | success exactly with a key and a secret; a service with a proxy keeps it, otherwise the proxy is made and refreshing cleared |
| Flickr.FlickrService.Start | services/flickr/flickr.c:301-307 | the service runs afterwards |
| Flickr.FlickrService.Refresh | services/flickr/flickr.c:266-283 | nothing while stopped or refreshing; otherwise one token lookup, and the refresh marked only in the guarded reading |
| Flickr.FlickrService.GotTokens | services/flickr/flickr.c:247-264 | authorised, the photos are requested; otherwise a NULL set is emitted and the refresh ends |
| Flickr.FlickrService.RefreshDone | services/flickr/flickr.c:124-131 | the current set is emitted, the refresh ends and the set is emptied |
| Flickr.FlickrService.PhotosReceived | services/flickr/flickr.c:192-228 | an error ends the refresh silently; otherwise the reply's set is emitted and the refresh ends |
| Flickr.FlickrService.EmitUserChanged | services/flickr/flickr.c:294 | one more user-changed signal |
| Flickr.CredentialsUpdated | services/flickr/flickr.c:285-299 | every Flickr service announces a user change and refreshes |
| Flickr.RefreshTwiceAsWritten | services/flickr/flickr.c:266-283 | as written, two refreshes of a running service look the tokens up twice |
| Flickr.RefreshTwiceGuarded | services/flickr/flickr.c:275-278 | with the guard, a refresh asked for during another is ignored |
| Flickr.RefreshAfterRefusal | services/flickr/flickr.c:247-264 | with the guard, a refresh that ended unauthorised lets the next one through |
| Flickr.RefreshAfterPhotos | services/flickr/flickr.c:124-131 | with the guard, a refresh whose photos arrived lets the next one through |
| FlickrViews.LargestPhotoUrl | services/flickr/flickr-item-view.c:250-254 | the original, else the large, else the medium photo URL |
| FlickrViews.PhotoItem | services/flickr/flickr-item-view.c:231-272 | the item has the page URL as id, the largest photo URL, the upload date, a geotag for a located photo, and the medium-photo thumbnail and buddy icon downloads |
| FlickrViews.PhotoSetSkipsBanned | services/flickr/flickr-item-view.c:276-330 | no banned id is in the set and every photo whose page is not banned is |
| FlickrViews.PhotosRequest | services/flickr/flickr-item-view.c:332-394 | a request exists exactly for the four known queries, and it ends with the common extras and format |
| FlickrViews.RequestFilters | services/flickr/flickr-item-view.c:350-375 | "feed" includes the user's own photos, "friends-only" does not, and a search filters by licence exactly when the view has one |
| FlickrViews.FlickrItemView.constructor | services/flickr/flickr-item-view.c:536-556 | a new view holds its query and parameters, with no timer and nothing sent or shown |
| FlickrViews.FlickrItemView.GotTokens | services/flickr/flickr-item-view.c:396-410 | authorised, the query's request is sent, or the daemon aborts on an unknown query; unauthorised, nothing happens |
| FlickrViews.FlickrItemView.PhotosReceived | services/flickr/flickr-item-view.c:276-330 | an error changes nothing; otherwise the photo set without banned ids is shown and saved |
| FlickrViews.ContactIconUrl | services/flickr/flickr-contact-view.c:189-196 | the default icon exactly when the server or farm is missing or the server is the string "0" |
| FlickrViews.ContactIconAgrees | services/flickr/flickr-contact-view.c:189-196 | for a server written as a number, the contact rule and the photo rule give the same icon |
| FlickrViews.ContactIconDiffersOnPaddedZero | services/flickr/flickr-contact-view.c:191 | on a server written "00" the contact gets the farm icon while the photo's owner gets the default |
| FlickrViews.MakeContact | services/flickr/flickr-contact-view.c:158-202 | no contact without an nsid; otherwise the nsid as id, the real and user names when present, the current time, and the held-back icon download |
| FlickrViews.ContactSetFromNodes | services/flickr/flickr-contact-view.c:204-259 | every member is a node's contact under its unbanned nsid, and every unbanned node with an nsid is in the set |
| FlickrViews.ContactsRequest | services/flickr/flickr-contact-view.c:261-288 | only "people" sends a request, for the contact list |
| FlickrViews.FlickrContactView.constructor | services/flickr/flickr-contact-view.c:423-439 | a new view holds its query, with no timer and nothing sent or shown |
| FlickrViews.FlickrContactView.GotTokens | services/flickr/flickr-contact-view.c:290-304 | authorised, the contact list is requested, or the daemon aborts on another query; unauthorised, nothing happens |
| FlickrViews.FlickrContactView.ContactsReceived | services/flickr/flickr-contact-view.c:204-259 | an error changes nothing; otherwise the contact set without banned ids is shown and saved |
| Keyfob.CString | mojito-keyfob/mojito-keyfob.c:57-58 | the C string is the bytes before the first NUL, and holds no NUL |
| Keyfob.SplitOnce | mojito-keyfob/mojito-keyfob.c:35-37 | there are two pieces exactly when the string has a space, and they are the text before the first space and everything after it |
| Keyfob.DecodePair | mojito-keyfob/mojito-keyfob.c:24-46 | a token and a secret are decoded exactly when the stored string holds a space |
| Keyfob.EncodePair | mojito-keyfob/mojito-keyfob.c:48-66 | the stored string always holds the separating space |
| Keyfob.EncodeThenDecode | mojito-keyfob/mojito-keyfob.c:24-66 | decoding a stored pair gives back the token and the secret as C strings |
| Keyfob.SplitUnique | mojito-keyfob/mojito-keyfob.c:35 | a string joined at a space splits back at that space when the first part has none |
| Keyfob.OAuthProxy.constructor | mojito-keyfob/mojito-keyfob.c:113-141 | a new proxy has no token and no secret |
| Keyfob.FoundKey | mojito-keyfob/mojito-keyfob.c:80-111 | success exactly when the lookup succeeded and the stored string decoded, and only then does the proxy take the token and secret |
| Keyfob.DecodeOneBlock | mojito-keyfob/mojito-keyfob.c:188-210 | one block, valid or not, does not decode |
| Keyfob.DecodeTwoBlocks | mojito-keyfob/mojito-keyfob.c:188-210 | "MTIzNA== YWJjZA==" decodes to "1234" and "abcd" |
| Keyfob.EncodeTokenAbcd | mojito-keyfob/mojito-keyfob.c:218-233 | "1234" and "abcd" encode to "MTIzNA== YWJjZA==" |
| Keyfob.EncodeExamples | mojito-keyfob/mojito-keyfob.c:212-216 | "1234" and "5678" encode to "MTIzNA== NTY3OA==" |
| Keystore.FirstRow | mojito-keystore/mojito-keystore.c:67-70 | the row found is the first one for the service, and none is found exactly when no row names it |
| Keystore.GetKeySecret | mojito-keystore/mojito-keystore.c:58-86 | found exactly when a row names the service; then its key and, when asked, its secret; otherwise NULL for both |
| Keystore.FirstRowAt | mojito-keystore/mojito-keystore.c:67-70 | the row the scan stops at is the first for the service |
| Keystore.GetKey | mojito-keystore/mojito-keystore.c:88-98 | the key of the first row for the service, NULL when there is none |
| Keystore.UnknownService | mojito-keystore/mojito-keystore.c:101-114 | an unknown service has no row |
| Keystore.ConfiguredServices | mojito-keystore/mojito-keystore.c:116-151 | with every key configured, each service finds its own row, and lastfm and digg have no secret |
| LastfmContactViews.ContactProps | services/lastfm/lastfm-contact-view.c:455-470 | the contact holds the id, the real name or else the id as name, the url when given, and the time as date, and nothing else |
| LastfmContactViews.FriendContact | services/lastfm/lastfm-contact-view.c:444-470 | no contact for a friend without a name; otherwise the name as id and the other properties as above, with no download |
| LastfmContactViews.ContactSetMembers | services/lastfm/lastfm-contact-view.c:439-474 | every unbanned friend with a name has a contact under that name, and every contact is an unbanned friend's |
| LastfmContactViews.LastfmContactView.constructor | services/lastfm/lastfm-contact-view.c:696-703 | a new view has an empty call list, no timer and nothing sent, shown or saved |
| LastfmContactViews.LastfmContactView.GetUpdates | services/lastfm/lastfm-contact-view.c:487-521 | outstanding calls are cancelled, the set emptied and one new call listed; it is sent only when the service has a user id |
| LastfmContactViews.LastfmContactView.UpdateIfDone | services/lastfm/lastfm-contact-view.c:216-238 | with no call left the set is shown and saved and then emptied; otherwise nothing changes |
| LastfmContactViews.LastfmContactView.AddContacts | services/lastfm/lastfm-contact-view.c:439-474 | the set gains each unbanned friend's contact, and the result says whether any joined |
| LastfmContactViews.LastfmContactView.GotFriends | services/lastfm/lastfm-contact-view.c:412-485 | the call leaves the list; an error or rejected reply ends there; otherwise the contacts join the set, and the view is updated only when some did |
| LastfmContactViews.LastfmContactView.Start | services/lastfm/lastfm-contact-view.c:553-570 | a started view changes nothing; otherwise the timer is armed, the cached set shown and the friends asked for |
| LastfmContactViews.LastfmContactView.Stop | services/lastfm/lastfm-contact-view.c:572-584 | no timer is armed afterwards |
| LastfmContactViews.LastfmContactView.UserChanged | services/lastfm/lastfm-contact-view.c:592-606 | the view is emptied and the cache dropped once |
| LastfmContactViews.LastfmContactView.CapabilitiesChanged | services/lastfm/lastfm-contact-view.c:608-632 | the timer runs exactly with valid credentials, which also refresh; anything else sends nothing |
| LastfmContactViews.UnconfiguredRefreshNeverPublishes | services/lastfm/lastfm-contact-view.c:505-511 | without a user id the refresh leaves an unsent call listed, so a reply to any other call shows nothing |
| LastfmItemViews.NodeFromCall | services/lastfm/lastfm-item-view.c:157-202 | a root is returned exactly for a 2xx status, a parsed "lfm" root and status "ok" |
| LastfmItemViews.FirstSized | services/lastfm/lastfm-item-view.c:235-246 | the position found is the first image of the size, or the end when there is none |
| LastfmItemViews.ImageUrl | services/lastfm/lastfm-item-view.c:228-249 | the text of the first image of the size; nothing when no image has that size |
| LastfmItemViews.MakeTitle | services/lastfm/lastfm-item-view.c:329-345 | "<track> by <artist>", the track alone without an artist, "Unknown" without a track |
| LastfmItemViews.TitleNamesTrack | services/lastfm/lastfm-item-view.c:329-345 | the title starts with the track's name whenever there is one |
| LastfmItemViews.ArtistCall | services/lastfm/lastfm-item-view.c:285-327 | the artist.getInfo call asks by MusicBrainz id when the artist has a non-empty one, by name otherwise |
| LastfmItemViews.Fields | services/lastfm/lastfm-item-view.c:347-393 | the id is the track URL and the user name; the date is the scrobble time or now; the author is the real name or else the user name |
| LastfmItemViews.TrackFetches | services/lastfm/lastfm-item-view.c:368-390 | at most two downloads, and only the thumbnail holds the item back |
| LastfmItemViews.TrackDraft | services/lastfm/lastfm-item-view.c:347-393 | the item holds exactly the read id, url, title, album, date, author and author id, and the downloads |
| LastfmItemViews.MakeItem | services/lastfm/lastfm-item-view.c:285-327 | a track with a large album image fetches it; one without waits on exactly one artist lookup |
| LastfmItemViews.ArtistAnswered | services/lastfm/lastfm-item-view.c:251-283 | the artist's large image, when there is one, becomes the thumbnail, and one pending lookup is done |
| LastfmItemViews.EntriesAt | services/lastfm/lastfm-item-view.c:429-435 | each track makes exactly its own item, in its place |
| LastfmItemViews.LookupsForMissingArt | services/lastfm/lastfm-item-view.c:429-435 | a reply sends one artist lookup for each track without a large album image, and no other |
| LastfmItemViews.TrackAsks | services/lastfm/lastfm-item-view.c:305-326 | a track asks for a lookup exactly when it has no large album image |
| LastfmItemViews.TrackItems | services/lastfm/lastfm-item-view.c:429-435 | every item of a reply is its track's, and waits for a lookup exactly when the track lacks a large album image |
| LastfmItemViews.TracksCallsAt | services/lastfm/lastfm-item-view.c:468-488 | one getRecentTracks call per friend, for that friend, in order |
| LastfmItemViews.LastfmItemView.constructor | services/lastfm/lastfm-item-view.c:638-645 | a new view has no call, no timer and nothing sent, shown or saved |
| LastfmItemViews.LastfmItemView.GetStatusUpdates | services/lastfm/lastfm-item-view.c:493-526 | outstanding calls are cancelled, the set emptied, and one friends call listed and sent |
| LastfmItemViews.LastfmItemView.UpdateIfDone | services/lastfm/lastfm-item-view.c:204-226 | with no call left the set is shown, saved and emptied; otherwise nothing changes |
| LastfmItemViews.LastfmItemView.Answered | services/lastfm/lastfm-item-view.c:408 | the answered call leaves the list and is forgotten |
| LastfmItemViews.LastfmItemView.AddFriendCall | services/lastfm/lastfm-item-view.c:468-488 | one call for the friend goes out and is listed, remembering the friend |
| LastfmItemViews.LastfmItemView.GotFriends | services/lastfm/lastfm-item-view.c:442-491 | the call leaves the list; an error or rejected reply ends there; otherwise one call per friend goes out in order |
| LastfmItemViews.LastfmItemView.AddFriends | services/lastfm/lastfm-item-view.c:468-488 | the loop sends and lists one call per friend, in order |
| LastfmItemViews.LastfmItemView.GotTracks | services/lastfm/lastfm-item-view.c:395-440 | the call leaves the list; an error or rejected reply ends there; otherwise every track's item joins the set, lookups go out, and the view is updated if no call is left |
| LastfmItemViews.LastfmItemView.AddAll | services/lastfm/lastfm-item-view.c:429-435 | the set gains every track's item in order and exactly their lookups are sent |
| LastfmItemViews.LastfmItemView.AddMade | services/lastfm/lastfm-item-view.c:429-435 | the item joins the set and its lookup, if any, is sent |
| LastfmItemViews.LastfmItemView.GotArtistInfo | services/lastfm/lastfm-item-view.c:251-283 | the call leaves the list; on success the item takes the artist's image and stops waiting, and the view is updated if no call is left |
| LastfmItemViews.LastfmItemView.Start | services/lastfm/lastfm-item-view.c:557-574 | a started view changes nothing; otherwise the timer is armed, the cached set shown and the friends asked for |
| LastfmItemViews.LastfmItemView.Stop | services/lastfm/lastfm-item-view.c:576-588 | no timer is armed afterwards |
| MojitoCache.SetVerbatim | mojito/mojito-cache.c:60-76 | every property is set as it is in the item's group, which is created if needed, and the file stays well formed |
| MojitoCache.SetKeyfileFromItem | mojito/mojito-cache.c:60-76 | an item without an id adds nothing; otherwise every property goes into the group named by the id |
| MojitoCache.Save | mojito/mojito-cache.c:85-113 | a NULL or empty set removes the cache file; otherwise the file holds one group per item with an id |
| MojitoCache.LoadGroup | mojito/mojito-cache.c:165-167 | one turn of the group loop adds that group's item with mojito_set_add |
| MojitoCache.Load | mojito/mojito-cache.c:145-177 | NULL without a readable file or with no groups; otherwise the item set of all its groups |
| MojitoCache.FirstGroupWins | mojito/mojito-set.c:60-67 | the first group holding an id is the one the loaded set keeps |
| MojitoCache.MojitoLoadedByGroup | mojito/mojito-cache.c:119-177 | when each group holds its own name as id, the loaded ids are exactly the groups read, each with its keys |
| MojitoCache.SaveThenLoadMojito | mojito/mojito-cache.c:60-177 | a saved set read back holds exactly its items with an id, each with its properties |
| MojitoItemViews.Payloads | mojito/mojito-item-view.c:289-307 | one payload per item, in list order |
| MojitoItemViews.Pairs | mojito/mojito-item-view.c:330-363 | one (service, id) pair per item, in list order |
| MojitoItemViews.AddFrom | mojito/mojito-set.c:60-67 | the table holds the old and the new ids, and an id held before keeps its old item |
| MojitoItemViews.Difference | mojito/mojito-item-view.c:418-425 | the members of the first set whose id the second lacks |
| MojitoItemViews.ObjectPathsDistinct | mojito/mojito-item-view.c:108-122 | views created at different counts get different object paths |
| MojitoItemViews.PathCounter.constructor | mojito/mojito-item-view.c:113 | the static counter starts at 0 |
| MojitoItemViews.PathCounter.MakeObjectPath | mojito/mojito-item-view.c:108-122 | the path names the current count, which then goes up by one |
| MojitoItemViews.MojitoItemView.constructor | mojito/mojito-item-view.c:124-171 | a new view holds nothing, has emitted nothing and takes the next object path |
| MojitoItemViews.MojitoItemView.AddItems | mojito/mojito-item-view.c:289-307 | one ItemsAdded carries every item in list order, even for an empty list |
| MojitoItemViews.MojitoItemView.UpdateItems | mojito/mojito-item-view.c:309-328 | one ItemsChanged carries every item in list order |
| MojitoItemViews.MojitoItemView.RemoveItems | mojito/mojito-item-view.c:330-363 | one ItemsRemoved carries the service and id of every item |
| MojitoItemViews.MojitoItemView.AddFromSet | mojito/mojito-item-view.c:382-394 | the set joins the current set and all its items are announced once |
| MojitoItemViews.MojitoItemView.RemoveFromSet | mojito/mojito-item-view.c:396-409 | the set's ids leave the current set and all its items are announced as removed |
| MojitoItemViews.MojitoItemView.SetFromSet | mojito/mojito-item-view.c:411-431 | the view ends holding exactly the new set's ids, items held before stay as they were, and the removed and added batches are announced |
| MojitoItemViews.MojitoItemView.ApplyDifference | mojito/mojito-item-view.c:418-429 | what the new set lacks is removed and what the view lacks is added, each batch announced |
| MojitoItemViews.DifferenceMerge | mojito/mojito-item-view.c:418-429 | removing the missing ids and adding the new ones leaves exactly the new set's ids, old items kept |
| MojitoSets.MojitoSet.constructor | mojito/mojito-set.c:24-35 | a new set is empty with one reference |
| MojitoSets.MojitoSet.Ref | mojito/mojito-set.c:37-46 | a live set gains one reference |
| MojitoSets.MojitoSet.Unref | mojito/mojito-set.c:48-58 | one reference is dropped, and the last one frees the table |
| MojitoSets.MojitoSet.Add | mojito/mojito-set.c:60-67 | NULL is refused, an item whose key is held leaves the set alone, and otherwise the item joins; afterwards the set has it |
| MojitoSets.MojitoSet.Remove | mojito/mojito-set.c:69-76 | NULL is refused; otherwise the item's key leaves the set |
| MojitoSets.MojitoSet.IsEmpty | mojito/mojito-set.c:87-93 | true exactly when the set has no member |
| MojitoSets.MojitoSet.Empty | mojito/mojito-set.c:95-101 | the set has no member afterwards |
| MojitoCache.SetRest | mojito/mojito-cache.c:72-75 | the rest of the property loop sets every remaining property in the item's group and leaves the group order alone |
| Myspace.DynamicCaps | services/myspace/myspace.c:272-287 | a known user id gives capabilities, status update among them, and no user id gives none |
| Myspace.NodeFromCall | services/myspace/myspace.c:47-90 | a root comes back exactly when the status is 2xx, the payload parses and the root is not "error", and it is the parsed one |
| Myspace.StatusNodes | services/myspace/myspace.c:131-139 | a reply without a "friends" node is read as the single user's own status |
| Myspace.StatusIdShape | services/myspace/myspace.c:162-167 | the id is "myspace-", the user id, "-" and the update time |
| Myspace.StatusIdsDistinct | services/myspace/myspace.c:162-167 | for user ids without '-', equal ids mean equal user and equal update time |
| Myspace.StatusDate | services/myspace/myspace.c:92-107 | a date exactly when there is an update time |
| Myspace.TextOr | services/myspace/myspace.c:172-177 | the node's text when present, otherwise the account's value |
| Myspace.IconFetch | services/myspace/myspace.c:180-182 | an author icon is fetched exactly when the node has image URL text |
| Myspace.StatusItem | services/myspace/myspace.c:158-193 | the item carries the composed id, the date, the user id, the name or display name, the status, the profile URL or the account's, and the icon fetch |
| Myspace.StatusSetMembers | services/myspace/myspace.c:141-197 | every status of the reply is in the set and every member of the set is some status's item |
| Myspace.OwnStatusIsEmitted | services/myspace/myspace.c:131-202 | a reply for the user alone gives a set of exactly one status, so it is emitted |
| Myspace.StatusCall | services/myspace/myspace.c:207-235 | the call goes to "v1/users/<id>/": the own status or the friends' statuses |
| Myspace.MyspaceService.constructor | services/myspace/myspace.c:500-510 | not running, no account values, and online the keyring is asked at once |
| Myspace.MyspaceService.OnlineNotify | services/myspace/myspace.c:431-453 | online makes a proxy and asks the keyring; offline drops the proxy and the user id and announces no capabilities |
| Myspace.MyspaceService.GotTokens | services/myspace/myspace.c:323-337 | with tokens the user is asked for; without, a NULL set is emitted |
| Myspace.MyspaceService.GetStatusUpdates | services/myspace/myspace.c:207-235 | the status call for the current user is sent |
| Myspace.MyspaceService.GotUser | services/myspace/myspace.c:289-321 | an error or rejected reply changes nothing; otherwise the four account values are read, the capabilities announced, and a running service asks for statuses |
| Myspace.MyspaceService.GotStatus | services/myspace/myspace.c:109-205 | an error or rejected reply emits nothing; otherwise the status set is emitted exactly when it is not empty |
| Myspace.MyspaceService.Start | services/myspace/myspace.c:339-345 | the service is running |
| Myspace.MyspaceService.Refresh | services/myspace/myspace.c:347-360 | nothing unless running; no user id asks the keyring again, a user id asks for the statuses |
| Myspace.ReconnectForgetsUser | services/myspace/myspace.c:431-453 | after going offline and online a refresh asks the keyring again |
| MyspaceItemViews.NodeFromCall | services/myspace/myspace-item-view.c:165-206 | a root comes back exactly when the status is 2xx and the payload parsed, and it is the parsed one |
| MyspaceItemViews.EntryId | services/myspace/myspace-item-view.c:244-245 | the id is "myspace-" followed by the status id |
| MyspaceItemViews.IconFetch | services/myspace/myspace-item-view.c:256-258 | an "authoricon" fetch exactly when the author has a thumbnail, and the item does not wait for it |
| MyspaceItemViews.EntryItem | services/myspace/myspace-item-view.c:218-275 | the item carries the id, the user id, the author's name, the unescaped status, the update date, the profile URL and the icon fetch |
| MyspaceItemViews.EntryIdsDistinct | services/myspace/myspace-item-view.c:244-245 | different status ids give different item ids |
| MyspaceItemViews.ReplySetMembers | services/myspace/myspace-item-view.c:277-330 | every entry not banned is in the set and every member is an entry's item, not banned |
| MyspaceItemViews.StatusCall | services/myspace/myspace-item-view.c:372-427 | twenty entries with authors; "own" reads the user's history and "feed" the friends' history with the user included |
| MyspaceItemViews.MyspaceItemView.constructor | services/myspace/myspace-item-view.c:544-566 | a new view has no timer, has sent, shown and cached nothing |
| MyspaceItemViews.MyspaceItemView.GetStatusUpdates | services/myspace/myspace-item-view.c:409-427 | the query's call goes out |
| MyspaceItemViews.MyspaceItemView.GotStatus | services/myspace/myspace-item-view.c:332-369 | an error or rejected reply shows nothing; otherwise the reply's set is shown and saved to the cache |
| MyspaceItemViews.MyspaceItemView.Start | services/myspace/myspace-item-view.c:439-472 | a started view only warns; otherwise the timer is armed, the cache shown and the statuses asked for |
| MyspaceItemViews.MyspaceItemView.Stop | services/myspace/myspace-item-view.c:474-486 | the timer is not armed afterwards |
| MyspaceItemViews.MyspaceItemView.CapabilitiesChanged | services/myspace/myspace-item-view.c:518-541 | the timer is armed exactly with valid credentials, which also send a refresh |
| MyspaceItemViews.MyspaceItemView.UserChanged | services/myspace/myspace-item-view.c:502-515 | an empty set is shown and the cache dropped |
| MyspaceItemViews.MyspaceItemView.ItemHidden | services/myspace/myspace-item-view.c:494-500 | the hidden uid is removed from the view |
| Photobucket.DynamicCaps | services/photobucket/photobucket.c:122-145 | valid credentials exactly with a known user, configured with a user or with tokens, and nothing else |
| Photobucket.StatusChild | services/photobucket/photobucket.c:147-195 | the status looked at is a "status" child of the root |
| Photobucket.NodeFromCall | services/photobucket/photobucket.c:147-195 | accepted exactly for a 2xx response that parses into a response whose status is "OK"; a non-2xx status is an HTTP error, an unreadable payload malformed, and a remote error carries the reply's message |
| Photobucket.AlbumOf | services/photobucket/photobucket.c:731-748 | an album id exactly for a collection id with the "photobucket-" prefix, which is that id without the prefix |
| Photobucket.AlbumOfCollectionId | services/photobucket/photobucket.c:731-748 | a collection id made from an album names that album again |
| Photobucket.LastSlash | services/photobucket/photobucket.c:444 | the position of a '/' with no '/' after it, and none exactly when there is no '/' |
| Photobucket.ParentId | services/photobucket/photobucket.c:444-470 | top-level ("") exactly when the name up to its last '/' holds no '/'; otherwise the collection id of that prefix |
| Photobucket.ParentOfChild | services/photobucket/photobucket.c:444-470 | an album "key/name" is reported under key's collection id, or as top-level when key is the user's album |
| Photobucket.ToGint | services/photobucket/photobucket.c:478-492 | the count is truncated to a 32-bit gint: in range, equal modulo 2^32, and unchanged when it fits |
| Photobucket.ExtraAttribs | services/photobucket/photobucket.c:474-499 | each of the four attributes is present exactly when the album has it, under its x-photobucket- key, and no other |
| Photobucket.CollectionDetails | services/photobucket/photobucket.c:430-508 | the details are the prefixed name, the title, the parent, all media types, the summed count and the extra attributes |
| Photobucket.NoCountsNoItems | services/photobucket/photobucket.c:474-492 | an album without either count reports 0 items |
| Photobucket.ListAlbumDetails | services/photobucket/photobucket.c:540-549 | the details of every album, in order |
| Photobucket.CallError | services/photobucket/photobucket.c:510-535 | an error exactly when the call failed or the reply was not accepted |
| Photobucket.ListAlbumsReply | services/photobucket/photobucket.c:510-557 | an error exactly when the call or the reply failed; otherwise the details of every sub-album of the user's album |
| Photobucket.DetailsReply | services/photobucket/photobucket.c:683-720 | an error exactly when the call or the reply failed; otherwise the details of the reply's album |
| Photobucket.ListCall | services/photobucket/photobucket.c:559-585 | the albums below the user's are asked for |
| Photobucket.DetailsCall | services/photobucket/photobucket.c:722-758 | a collection id without the prefix is refused; otherwise the album it names is asked for |
| Photobucket.ParentAlbum | services/photobucket/photobucket.c:646-660 | an empty parent is the user's album; otherwise the album the parent names |
| Photobucket.CreateCall | services/photobucket/photobucket.c:630-681 | refused exactly for a parent without the prefix; otherwise a POST of the parent album and name, answering "photobucket-<parent>/<name>" |
| Photobucket.CreatedAlbumId | services/photobucket/photobucket.c:630-681 | an album named as created reports the collection id the creation answered |
| Photobucket.CreatedAlbumParent | services/photobucket/photobucket.c:444-470 | that album reports the parent it was created under |
| Photobucket.CreateReply | services/photobucket/photobucket.c:599-628 | an error exactly when the call or reply failed; otherwise the id computed at creation |
| Photobucket.UploadType | services/photobucket/photobucket.c:391-392 | "video" exactly for videos |
| Photobucket.UploadCall | services/photobucket/photobucket.c:339-426 | refused exactly for a collection without the prefix; otherwise a POST to the user's or the named album with the type and the mapped fields |
| Photobucket.UploadToReportedAlbum | services/photobucket/photobucket.c:381-389 | uploading into a reported collection goes to its album |
| Photobucket.UploadProgress | services/photobucket/photobucket.c:778-793 | 100 and no message exactly on success; -1 and the error otherwise |
| Photobucket.PhotobucketService.constructor | services/photobucket/photobucket.c:946-952 | nothing initialised, configured or sent |
| Photobucket.PhotobucketService.OnlineNotify | services/photobucket/photobucket.c:276-290 | online asks the key fob for tokens; offline forgets the user and announces the capabilities |
| Photobucket.PhotobucketService.RefreshCredentials | services/photobucket/photobucket.c:296-319 | unconfigured, the user change and empty capabilities announced, and the tokens asked for again |
| Photobucket.PhotobucketService.GotTokens | services/photobucket/photobucket.c:240-274 | configured exactly when tokens came, which then check the access token; the capabilities are announced |
| Photobucket.PhotobucketService.CheckAccessToken | services/photobucket/photobucket.c:197-238 | the user is forgotten; an accepted reply takes the username and the api host and announces the capabilities |
| Photobucket.PhotobucketService.Init | services/photobucket/photobucket.c:895-936 | succeeds exactly when already initialised or the keys are there; a first success refreshes the credentials |
| Photobucket.TokenCheckDecidesCredentials | services/photobucket/photobucket.c:197-238 | after an accepted token check the credentials are valid exactly when the reply named a user |
| Plurk.Digit36 | services/plurk/plurk-item-view.c:240-267 | each base 36 digit is 0-9 or a-z and reads back as its value |
| Plurk.Base36 | services/plurk/plurk-item-view.c:240-267 | a positive number gives base 36 digits without a leading zero |
| Plurk.Base36RoundTrip | services/plurk/plurk-item-view.c:240-267 | the digits read back in base 36 are the number |
| Plurk.Base36Text | services/plurk/plurk-item-view.c:240-267 | NULL exactly for a number that is not positive |
| Plurk.Base36Encode | services/plurk/plurk-item-view.c:240-267 | the loop's digits are the base 36 text of the number |
| Plurk.ImageUrl | services/plurk/plurk.c:121-136 | users without a profile image get the default avatar |
| Plurk.ImageUrlsDistinct | services/plurk/plurk.c:121-136 | different positive avatar numbers give different URLs |
| Plurk.MakeItem | services/plurk/plurk-item-view.c:277-346 | no item exactly when the plurk has no owner_id or its owner is missing; otherwise it has id, url and content |
| Plurk.ItemIdsDistinct | services/plurk/plurk-item-view.c:312 | different plurk ids give different item ids |
| Plurk.PermalinkNamesPlurk | services/plurk/plurk-item-view.c:340-341 | the permalink is the prefix followed by the plurk id in base 36 |
| Plurk.GotStatusUpdates | services/plurk/plurk-item-view.c:348-413 | an error or a reply without plurks or users changes nothing; otherwise the items not banned are shown and cached |
| Plurk.DynamicCaps | services/plurk/plurk.c:157-195 | configured when online or with user name and password; valid, invalid, status update and avatar follow the credentials |
| Plurk.UserData | services/plurk/plurk.c:197-226 | a user id and avatar URL only from a reply with user_info |
| Plurk.PlurkService.constructor | services/plurk/plurk.c:401-406 | offline with nothing known or sent |
| Plurk.PlurkService.Init | services/plurk/plurk.c:410-447 | a second call succeeds at once; without a key it fails; otherwise it goes offline, watches the network and asks the keyring |
| Plurk.PlurkService.OnlineNotify | services/plurk/plurk.c:261-289 | the credentials go offline; online with user name and password logs in; offline forgets the user id and announces capabilities without valid credentials |
| Plurk.PlurkService.LoginReplied | services/plurk/plurk.c:228-259 | the credentials are invalid exactly on error; the user data is kept when present; the capabilities are announced |
| Plurk.PlurkService.FoundPassword | services/plurk/plurk.c:294-331 | an entry sets user name and password and logs in again when online; a miss forgets them; user change and capabilities are announced |
| Plurk.PlurkService.CredentialsUpdated | services/plurk/plurk.c:342-346 | the keyring is asked again |
| Plurk.PlurkService.QueryOpenView | services/plurk/plurk.c:462-510 | a view exactly for the three known queries; any other is an invalid-query error |
| Plurk.PlurkService.RequestAvatar | services/plurk/plurk.c:535-548 | the avatar is downloaded exactly when the login gave an image URL |
| Plurk.PlurkService.AvatarDownloaded | services/plurk/plurk.c:524-533 | the avatar path is announced |
| Plurk.PlurkService.UpdateStatus | services/plurk/plurk.c:578-603 | a reply exactly with a user id, which posts the message with the ":" qualifier |
| Plurk.PlurkService.StatusUpdateReplied | services/plurk/plurk.c:562-576 | the status-updated signal carries success exactly without an error |
| Plurk.ForgetAfterLogin | services/plurk/plurk.c:294-331 | losing the keyring entry leaves no capabilities at all |
| Sina.DynamicCaps | services/sina/sina.c:118-145 | valid credentials and status update exactly with a known user id; configured with a user id or tokens |
| Sina.NodeFromCall | services/sina/sina.c:147-180 | a root exactly for a 2xx response whose payload parses, and it is the parsed one |
| Sina.UpdateCall | services/sina/sina.c:506-529 | the update is a POST carrying the message as "status" |
| Sina.SinaService.constructor | services/sina/sina.c:337-342 | nothing initialised, known, opened or sent |
| Sina.SinaService.OnlineNotify | services/sina/sina.c:251-269 | online asks the keyring for tokens; offline forgets the user id and avatar URL and announces the capabilities |
| Sina.SinaService.GotTokens | services/sina/sina.c:237-249 | the credentials are verified exactly when tokens came |
| Sina.SinaService.GotUser | services/sina/sina.c:208-235 | an error or rejected reply changes nothing; otherwise the user id and image URL are taken and the capabilities announced |
| Sina.SinaService.RefreshCredentials | services/sina/sina.c:271-276 | the user is forgotten, the capabilities announced and the keyring asked again |
| Sina.SinaService.CredentialsUpdated | services/sina/sina.c:278-285 | the credentials are refreshed and the user change and capabilities announced |
| Sina.SinaService.Init | services/sina/sina.c:346-377 | succeeds exactly when initialised before or the keys are there; a first success refreshes the credentials |
| Sina.SinaService.QueryOpenView | services/sina/sina.c:392-439 | a view exactly for "feed" and "own"; any other query is an invalid-query error |
| Sina.SinaService.RequestAvatar | services/sina/sina.c:463-476 | the avatar is downloaded exactly when its URL is known |
| Sina.SinaService.UpdateStatus | services/sina/sina.c:506-529 | answered exactly with a user id, which posts the update |
| Sina.SinaService.StatusUpdateDone | services/sina/sina.c:489-504 | the status-updated signal carries success exactly without an error |
| Sina.OfflineStopsUpdates | services/sina/sina.c:251-269 | after going offline there are no valid credentials and an update sends nothing |
| Sina.VerifiedUserCanUpdate | services/sina/sina.c:208-235 | a verified user makes the credentials valid and an update then goes out |
| SinaItemViews.StatusId | services/sina/sina-item-view.c:253-256 | the id is "sina-" followed by the status id |
| SinaItemViews.ProfileUrl | services/sina/sina-item-view.c:274-276 | the url is the user's page on t.sina.com.cn |
| SinaItemViews.IconFetch | services/sina/sina-item-view.c:266-268 | an "authoricon" fetch exactly when the user has an image URL, not waited for |
| SinaItemViews.StatusItem | services/sina/sina-item-view.c:243-281 | the item carries the id, the date, the screen name, the text, the user's page and the icon fetch |
| SinaItemViews.StatusIdsDistinct | services/sina/sina-item-view.c:253-256 | different status ids give different item ids |
| SinaItemViews.PopulateSet | services/sina/sina-item-view.c:232-287 | the loop adds the reply's statuses that are not banned |
| SinaItemViews.PopulatedMembers | services/sina/sina-item-view.c:232-287 | every status not banned is in the set and every added member is a status's item, not banned |
| SinaItemViews.TimelineCall | services/sina/sina-item-view.c:354-382 | each timeline call asks for ten statuses |
| SinaItemViews.FirstTimeline | services/sina/sina-item-view.c:384-398 | the friends' timeline exactly for "feed" |
| SinaItemViews.SinaItemView.constructor | services/sina/sina-item-view.c:515-584 | a new view has no timer and has sent, shown and cached nothing |
| SinaItemViews.SinaItemView.GetStatusUpdates | services/sina/sina-item-view.c:384-398 | a new empty set goes out with the query's first call |
| SinaItemViews.SinaItemView.GotFriendsStatus | services/sina/sina-item-view.c:327-352 | an error stops the chain; otherwise the statuses join the set, which goes on to the user's timeline |
| SinaItemViews.SinaItemView.GotUserStatus | services/sina/sina-item-view.c:291-325 | an error shows nothing; otherwise the statuses join the set, which is shown and cached |
| SinaItemViews.SinaItemView.Start | services/sina/sina-item-view.c:410-443 | a started view only warns; otherwise the timer is armed, the cache shown and a refresh started |
| SinaItemViews.SinaItemView.Stop | services/sina/sina-item-view.c:445-457 | the timer is not armed afterwards |
| SinaItemViews.SinaItemView.CapabilitiesChanged | services/sina/sina-item-view.c:489-513 | the timer is armed exactly with valid credentials, which also start a refresh |
| SinaItemViews.SinaItemView.UserChanged | services/sina/sina-item-view.c:473-487 | an empty set is shown and the cache dropped |
| SinaItemViews.SinaItemView.ItemHidden | services/sina/sina-item-view.c:465-471 | the hidden uid is removed from the view |
| SinaItemViews.FeedRefresh | services/sina/sina-item-view.c:291-352 | a "feed" refresh sends both timeline calls and shows the statuses of both once, in one set |
| SinaItemViews.FeedSetMembers | services/sina/sina-item-view.c:232-352 | every status of either timeline not banned is in the published set, and every member is not banned |
| SwCache.QueryOrFeed | libsocialweb/sw-cache.c:164-167 | a NULL query is "feed", any other is kept |
| SwCache.MakeRelativePath | libsocialweb/sw-cache.c:78-86 | a relative path exactly for the "authoricon" and "thumbnail" keys |
| SwCache.MakeAbsolutePath | libsocialweb/sw-cache.c:91-102 | an absolute path exactly for the "authoricon" and "thumbnail" keys |
| SwCache.AbsoluteThenRelative | libsocialweb/sw-cache.c:78-102 | a file name made absolute and then relative is the same name again |
| SwCache.RelativeThenAbsolute | libsocialweb/sw-cache.c:78-102 | a path saved relative and loaded back is the file of that base name in the thumbnail directory |
| SwCache.NonPathExamples | libsocialweb/sw-cache.c:333-351 | other keys are left as they are |
| SwCache.ThumbnailExample | libsocialweb/sw-cache.c:346-347 | a cached thumbnail path keeps only its file name |
| SwCache.AbsoluteExample | libsocialweb/sw-cache.c:366-369 | a stored name is found in the thumbnail directory under the cache directory |
| SwCache.SetProps | libsocialweb/sw-cache.c:127-141 | every property is set in the item's group, image paths relative, and the group order unchanged |
| SwCache.SetKeyfileFromItem | libsocialweb/sw-cache.c:107-142 | an item without id or not ready adds nothing; otherwise its group gets "cached" and every property, and the file stays well formed |
| SwCache.Save | libsocialweb/sw-cache.c:155-189 | a NULL or empty set removes the file; otherwise the file holds exactly the groups of the saveable items |
| SwCache.Drop | libsocialweb/sw-cache.c:309-326 | the query's cache file is removed |
| SwCache.LoadItem | libsocialweb/sw-cache.c:195-239 | the group becomes an item of the service with absolute image paths, or NULL when its id is banned |
| SwCache.Load | libsocialweb/sw-cache.c:252-297 | NULL without a readable file or groups; otherwise a new set of the groups' items not banned |
| SwCache.LoadGroups | libsocialweb/sw-cache.c:276-285 | every group is read and the items not banned join a new set |
| SwCache.LoadGroup | libsocialweb/sw-cache.c:279-285 | one turn reads one group and adds its item unless banned |
| SwCache.LoadedItems | libsocialweb/sw-cache.c:195-297 | every loaded item is not banned, ready, of the service, keyed by its id and holds some group's keys with absolute paths |
| SwCache.GroupKeepsId | libsocialweb/sw-cache.c:115-124 | a saved group holds the item's id under "id" |
| SwCache.LoadedByGroup | libsocialweb/sw-cache.c:252-297 | when each group holds its own name as id, the loaded ids are exactly the groups read and not banned, each with its keys |
| SwCache.GroupItem | libsocialweb/sw-cache.c:195-239 | a group holding its own name as id reads back as an item of that id, banned exactly when the name is |
| SwCache.SaveThenLoad | libsocialweb/sw-cache.c:107-297 | a saved file read back gives exactly the saveable items not banned, each holding what was written |
| SwClientServices.BeforeTerminator | libsocialweb-client/sw-client-service.c:645-658 | the entries before the first NULL of the vector |
| SwClientServices.HasCap | libsocialweb-client/sw-client-service.c:645-658 | true exactly when the vector is not NULL and the capability comes before its terminator |
| SwClientServices.TerminatorReached | libsocialweb-client/sw-client-service.c:651-655 | the loop meets the terminator inside the vector |
| SwClientServices.ClientService.constructor | libsocialweb-client/sw-client-service.c:195-198 | no proxies, no display name read, no calls |
| SwClientServices.ClientService.SetupProxy | libsocialweb-client/sw-client-service.c:235-268 | an existing proxy is kept; without the bus it fails and nothing changes; otherwise the proxy for the service's object and interface is made; success exactly when the proxy exists |
| SwClientServices.ClientService.LoadInfo | libsocialweb-client/sw-client-service.c:606-629 | the display name is read from the key file the first time only |
| SwClientServices.ClientService.GetDisplayName | libsocialweb-client/sw-client-service.c:631-643 | the answer is the first read's name whatever the key file says later |
| SwClientServices.ClientService.QueryOpenView | libsocialweb-client/sw-client-service.c:560-602 | once the Query proxy exists the call is sent with the parameters or an empty table; otherwise nothing is sent |
| SwClientServices.ClientService.OpenViewReplied | libsocialweb-client/sw-client-service.c:530-558 | the callback gets the view path, or nothing on error |
| SwClientServices.SetupTwice | libsocialweb-client/sw-client-service.c:235-268 | asking for a proxy twice creates it once |
| SwClientServices.DisplayNameTwice | libsocialweb-client/sw-client-service.c:606-643 | two reads give the same name, the first one's |
| SwClientServices.AfterTerminatorIgnored | libsocialweb-client/sw-client-service.c:645-658 | a capability after the terminator is not seen |
| SwContacts.Get | libsocialweb/sw-contact.c:221-232 | the first value stored under the key, and NULL exactly when there is none |
| SwContacts.ToContactPayload | libsocialweb/sw-contact.c:390-425 | the payload carries the service, the contact's id, the parsed first date and the whole property map |
| SwContacts.Appended | libsocialweb/sw-contact.c:165-191 | the value is appended after the key's existing values; no other key changes |
| SwContacts.AppendPreservesEarlier | libsocialweb/sw-contact.c:165-191 | putting keeps the earlier values and the first one |
| SwContacts.EqualIgnoresMtimeAndCached | libsocialweb/sw-contact.c:441-492 | the comparison ignores the modification time and the "cached" marker |
| SwContacts.EqualNeedsServiceAndPending | libsocialweb/sw-contact.c:453-457 | contacts of different services or with different outstanding fetches are unequal |
| SwContacts.EqualComparesInOrder | libsocialweb/sw-contact.c:472-490 | a value that differs in any position under a compared key makes the contacts unequal |
| SwContacts.EqualNotSymmetric | libsocialweb/sw-contact.c:442-492 | the comparison as written accepts a pair one way and refuses it the other way |
| SwContacts.EquivalentIsEquivalence | libsocialweb/sw-contact.c:441-492 | the intended comparison is reflexive, symmetric and transitive |
| SwContacts.EqualImpliesEquivalent | libsocialweb/sw-contact.c:459-490 | without empty lists, contacts the written comparison accepts are equivalent |
| SwContacts.EquivalentImpliesEqual | libsocialweb/sw-contact.c:459-490 | without empty lists, equivalent contacts are accepted by the written comparison |
| SwContacts.EqualIsEquivalentWithoutEmptyLists | libsocialweb/sw-contact.c:442-492 | without empty lists the written comparison is the intended one |
| SwContacts.Equal | libsocialweb/sw-contact.c:442-492 | the loop over a's keys computes the comparison |
| SwContacts.SwContact.constructor | libsocialweb/sw-contact.c:132-145 | a new contact has no properties, no fetches pending and has emitted nothing |
| SwContacts.SwContact.Touch | libsocialweb/sw-contact.c:427-433 | the modification time is now and "changed" is emitted |
| SwContacts.SwContact.Put | libsocialweb/sw-contact.c:165-191 | the value is appended under the key, the contact touched |
| SwContacts.SwContact.GetReady | libsocialweb/sw-contact.c:310-314 | ready exactly when no fetch is pending |
| SwContacts.SwContact.PushPending | libsocialweb/sw-contact.c:316-320 | one more fetch is pending |
| SwContacts.SwContact.PopPending | libsocialweb/sw-contact.c:322-332 | one fetch fewer is pending, "ready" is notified exactly when none remains, and the contact is touched |
| SwContactViews.HandlesSame | libsocialweb/sw-contact-view.c:344-350 | lists holding the same objects position by position hold the same handles |
| SwContactViews.HandlesOfElements | libsocialweb/sw-contact-view.c:448-449 | a list's handles are exactly those of its elements |
| SwContactViews.RefreshedListSpec | libsocialweb/sw-contact-view.c:435-459 | refreshing a contact in the changed list keeps every object in place and the handles distinct |
| SwContactViews.AppendNewHandle | libsocialweb/sw-contact-view.c:448-449 | appending a contact the list lacks keeps the handles distinct |
| SwContactViews.ReadyPayloadsSpec | libsocialweb/sw-contact-view.c:510-533 | ContactsAdded carries exactly the ready contacts in list order, the others wait, and the two together are the list |
| SwContactViews.AllReadyAllSent | libsocialweb/sw-contact-view.c:510-533 | a list of ready contacts is sent whole and nothing waits |
| SwContactViews.AddAllSpec | libsocialweb/sw-contact-view.c:688-699 | adding contacts one by one keeps the table keyed by id; its keys grow by their ids and each entry is one of them or the old one |
| SwContactViews.UpdatedSpec | libsocialweb/sw-contact-view.c:744-784 | the held ids stay; a listed contact with a held id replaces it exactly when the two differ; other entries stay |
| SwContactViews.ReplacementsSpec | libsocialweb/sw-contact-view.c:757-777 | exactly the listed contacts that replace a held contact are reported, each once |
| SwContactViews.RemoveReadyAll | libsocialweb/sw-contact-view.c:344-355 | visiting every pending contact removes exactly the ready ones |
| SwContactViews.ReadyReversedSpec | libsocialweb/sw-contact-view.c:344-350 | the timeout sends every ready pending contact once |
| SwContactViews.AddFromIsAddAll | libsocialweb/sw-contact-view.c:677-699 | adding a set with distinct ids is adding its members one by one, in any order |
| SwContactViews.FillEmpty | libsocialweb/sw-contact-view.c:805-807 | on an empty view adding the whole set is the merge: nothing stale, nothing replaced, everything new |
| SwContactViews.SetFromSetMerges | libsocialweb/sw-contact-view.c:798-830 | removing current minus new, updating from new and adding new minus current leaves the merged table, and the reported changes are exactly the new contacts that differ from the held ones |
| SwContactViews.ObjectPathsDistinct | libsocialweb/sw-contact-view.c:161-173 | views created at different counts get different object paths |
| SwContactViews.PathCounter.constructor | libsocialweb/sw-contact-view.c:165 | the static counter starts at 0 |
| SwContactViews.PathCounter.MakeObjectPath | libsocialweb/sw-contact-view.c:161-173 | the path names the current count, which then goes up by one |
| SwContactViews.DiffEventsInOrder | libsocialweb/sw-contact-view.c:805-830 | the signals of the three steps are those of the difference, in order |
| SwContactViews.RefreshIn | libsocialweb/sw-contact-view.c:435-459 | the set holding the changed object holds its new state |
| SwContactViews.PendOne | libsocialweb/sw-contact-view.c:510-530 | a ready contact becomes a payload; another gets a readiness handler and joins the pending set |
| SwContactViews.PendNotReady | libsocialweb/sw-contact-view.c:510-537 | ready contacts become payloads, the others wait with a readiness handler, and every contact gets a change handler |
| SwContactViews.ReplaceChanged | libsocialweb/sw-contact-view.c:757-780 | each listed contact with a held id that differs replaces the held one and is reported |
| SwContactViews.TakeReady | libsocialweb/sw-contact-view.c:344-355 | each ready pending contact is prepended to the list to send and leaves the pending set |
| SwContactViews.TakeReadyAll | libsocialweb/sw-contact-view.c:331-362 | the pending set keeps exactly the contacts not ready, and the ready ones are all sent, each once |
| SwContactViews.SwContactView.constructor | libsocialweb/sw-contact-view.c:244-256 | a new view holds nothing, waits for nothing, has no timeout and has sent nothing |
| SwContactViews.SwContactView.AddContacts | libsocialweb/sw-contact-view.c:498-537 | the ready contacts go out in one ContactsAdded when there are any; the others wait with a readiness handler |
| SwContactViews.SwContactView.UpdateContacts | libsocialweb/sw-contact-view.c:547-581 | the ready contacts go out in one ContactsChanged when there are any |
| SwContactViews.SwContactView.RemoveContacts | libsocialweb/sw-contact-view.c:596-632 | one ContactsRemoved with a (service, id) pair per contact, when the list is not empty |
| SwContactViews.SwContactView.StoreUids | libsocialweb/sw-contact-view.c:688-695 | each contact is stored under its id |
| SwContactViews.SwContactView.DropUids | libsocialweb/sw-contact-view.c:723-729 | each contact's id leaves the uid table |
| SwContactViews.SwContactView.AddFromSet | libsocialweb/sw-contact-view.c:677-699 | the set's contacts join the current set and the uid table and are sent through add_contacts |
| SwContactViews.SwContactView.RemoveFromSet | libsocialweb/sw-contact-view.c:711-733 | the set's contacts leave the current set and the uid table and go out in one ContactsRemoved |
| SwContactViews.SwContactView.UpdateExisting | libsocialweb/sw-contact-view.c:744-784 | a contact whose id is held replaces the held one, and is reported changed, exactly when they differ |
| SwContactViews.SwContactView.RemoveAnyFromSet | libsocialweb/sw-contact-view.c:812-813 | a non-empty stale set is removed; an empty one does nothing |
| SwContactViews.SwContactView.AddAnyFromSet | libsocialweb/sw-contact-view.c:824-825 | a non-empty new set is added; an empty one does nothing |
| SwContactViews.SwContactView.Differences | libsocialweb/sw-contact-view.c:809-810 | removed is current minus new and added is new minus current |
| SwContactViews.SwContactView.ApplyDifference | libsocialweb/sw-contact-view.c:808-829 | the stale contacts are removed, the held ones updated and the new ones added |
| SwContactViews.SwContactView.FillFromSet | libsocialweb/sw-contact-view.c:805-807 | on an empty view the whole set is added |
| SwContactViews.SwContactView.SetFromSet | libsocialweb/sw-contact-view.c:798-830 | the view ends holding the merge of what it held and the new set, and sends exactly the difference's signals |
| SwContactViews.SwContactView.Refresh | libsocialweb/sw-contact-view.c:435-459 | every stored snapshot of the changed object takes its new state |
| SwContactViews.SwContactView.ContactReadyNotify | libsocialweb/sw-contact-view.c:368-395 | once ready, the handler is dropped and the pending timeout is installed unless there is one |
| SwContactViews.SwContactView.PendingTimeoutFires | libsocialweb/sw-contact-view.c:331-362 | exactly the ready pending contacts leave the pending set and go out through add_contacts; the timeout is cleared |
| SwContactViews.SwContactView.ContactChanged | libsocialweb/sw-contact-view.c:435-459 | a change to a contact not ready is ignored; a ready one joins the changed list once and the refresh timeout is installed |
| SwContactViews.SwContactView.ChangedTimeoutFires | libsocialweb/sw-contact-view.c:419-433 | the changed list goes out through update_contacts and is emptied; the timeout is cleared |
| SwCore.Token | libsocialweb/sw-core.c:102-104 | a token with '=' is split at its first '=' into key and value; one without gives nothing |
| SwCore.ParamsKeys | libsocialweb/sw-core.c:99-111 | a key is in the table exactly when some token names it |
| SwCore.ParamsLastWins | libsocialweb/sw-core.c:99-111 | a key holds the value of its last token |
| SwCore.MakeParamHash | libsocialweb/sw-core.c:90-116 | NULL gives an empty table; otherwise the table of the ','-separated tokens |
| SwCore.SplitTwo | libsocialweb/sw-core.c:99 | two pieces joined by one separator split back into the two |
| SwCore.TokenOf | libsocialweb/sw-core.c:102-104 | "k=v" with no '=' in k reads as k and v |
| SwCore.ParamsOfTwo | libsocialweb/sw-core.c:99-111 | two tokens give the table of their two pairs |
| SwCore.TwoParams | libsocialweb/sw-core.c:90-116 | "k1=v1,k2=v2" maps each key to its value |
| SwCore.ValueKeepsEquals | libsocialweb/sw-core.c:102 | only the first '=' splits: "a=b=c" maps a to "b=c" |
| SwCore.SpecSplitsAtFirstColon | libsocialweb/sw-core.c:213 | the service name holds no ':' and with the parameters gives the spec back |
| SwCore.ServiceInstance.constructor | libsocialweb/sw-core.c:135-179 | an instance keeps its name and parameters |
| SwCore.OpenedView.constructor | libsocialweb/sw-core.c:192-243 | a new view has its count and no services |
| SwCore.Core.constructor | libsocialweb/sw-core.c:492-506 | no active services or views, and the saved ban list loaded |
| SwCore.Core.GetService | libsocialweb/sw-core.c:135-179 | the cached instance for the same name and parameters; otherwise a new cached instance when the type is known and it initialises; otherwise NULL |
| SwCore.Core.ServiceDestroyed | libsocialweb/sw-core.c:123-132 | a destroyed instance leaves the cache |
| SwCore.Core.OpenView | libsocialweb/sw-core.c:192-243 | a new view at the head of the list; each spec in turn is looked up with its name and parameter table, and the view holds exactly the services found, each with its spec's parameters, in spec order; the cache ends as the last lookup left it |
| SwCore.Core.LookUpSpecs | libsocialweb/sw-core.c:207-228 | the loop looks every spec up in order, chaining the cache from one lookup to the next, and the view holds what they found |
| SwCore.Core.AddFound | libsocialweb/sw-core.c:212-224 | the spec's name and parameter table are looked up; a found service is appended with those parameters and nothing is appended otherwise |
| SwCore.FoundServicesSound | libsocialweb/sw-core.c:220-221 | every service in the view was found for some spec, with that spec's parameters |
| SwCore.FoundServicesComplete | libsocialweb/sw-core.c:220-225 | every spec whose service was found contributes it with its parameters |
| SwCore.FoundServicesHas | libsocialweb/sw-core.c:220-221 | the service found for a spec is in the view with that spec's parameters |
| SwCore.Core.ViewDestroyed | libsocialweb/sw-core.c:181-190 | a destroyed view leaves the view list |
| SwCore.Core.HideItem | libsocialweb/sw-core.c:245-262 | the id is banned, every open view recalculated and the ban list saved |
| SwCore.Core.IsItemBanned | libsocialweb/sw-core.c:526-538 | banned exactly when the item's id is on the ban list |
| SwCore.CoreSingleton.constructor | libsocialweb/sw-core.c:544 | no core exists yet |
| SwCore.CoreSingleton.Dup | libsocialweb/sw-core.c:540-554 | the live core is returned; once none is alive a new one is made |
| SwCore.CoreSingleton.CoreDestroyed | libsocialweb/sw-core.c:548 | the weak pointer is cleared |
| SwItems.ToPayload | libsocialweb/sw-item.c:341-375 | the payload carries the service, the item's id, the parsed date and the whole property map |
| SwItems.WithCachedDate | libsocialweb/sw-item.c:171-184 | only the cached date changes, and it becomes the item's cached date |
| SwItems.CachedDateStable | libsocialweb/sw-item.c:171-184 | a non-zero cached date is never recomputed and caching twice changes nothing |
| SwItems.ToCInt | libsocialweb/sw-item.c:186-208 | the time_t difference is returned as a 32-bit int, equal modulo 2^32 |
| SwItems.NewerNegatesOlder | libsocialweb/sw-item.c:186-208 | newer-first is the negation of older-first except for the one difference whose negation does not fit an int |
| SwItems.SwItem.constructor | libsocialweb/sw-item.c:96-108 | a new item has no properties, no date, no fetches pending and has emitted nothing |
| SwItems.SwItem.Touch | libsocialweb/sw-item.c:377-381 | the modification time is now |
| SwItems.SwItem.Put | libsocialweb/sw-item.c:128-160 | a value is stored under the key, NULL removes it, no other key changes, and the item is touched |
| SwItems.SwItem.Get | libsocialweb/sw-item.c:162-169 | the value stored under the key, NULL exactly when there is none |
| SwItems.SwItem.CacheDate | libsocialweb/sw-item.c:171-184 | the item's date is cached once |
| SwItems.SwItem.GetReady | libsocialweb/sw-item.c:261-265 | ready exactly when no fetch is pending |
| SwItems.SwItem.PushPending | libsocialweb/sw-item.c:267-271 | one more fetch is pending and the item is not ready |
| SwItems.SwItem.PopPending | libsocialweb/sw-item.c:273-283 | one fetch fewer is pending, "ready" is notified exactly when none remains, and the item is touched |
| SwItems.SwItem.RequestImageFetch | libsocialweb/sw-item.c:309-335 | the fetch is recorded and, when it delays readiness, the item is not ready until it is done |
| SwItems.SwItem.ImageDownloaded | libsocialweb/sw-item.c:292-307 | the file (or NULL) is stored under the fetch's key, the fetch is done, and a delaying fetch pops its count |
| SwItemViews.HandlesSame | libsocialweb/sw-item-view.c:351-357 | lists holding the same objects position by position hold the same handles |
| SwItemViews.HandlesOfElements | libsocialweb/sw-item-view.c:455-456 | a list's handles are exactly those of its elements |
| SwItemViews.RefreshedListSpec | libsocialweb/sw-item-view.c:442-466 | refreshing an item in the changed list keeps every object in place and the handles distinct |
| SwItemViews.AppendNewHandle | libsocialweb/sw-item-view.c:455-456 | appending an item the list lacks keeps the handles distinct |
| SwItemViews.ReadyPayloadsSpec | libsocialweb/sw-item-view.c:576-598 | ItemsAdded carries exactly the ready items in list order, the others wait, and the two together are the list |
| SwItemViews.AllReadyAllSent | libsocialweb/sw-item-view.c:576-598 | a list of ready items is sent whole and nothing waits |
| SwItemViews.AddAllSpec | libsocialweb/sw-item-view.c:748-755 | adding items one by one keeps the table keyed by id; its keys grow by their ids and each entry is one of them or the old one |
| SwItemViews.UpdatedSpec | libsocialweb/sw-item-view.c:804-844 | the held ids stay; a listed item with a held id replaces it exactly when sw_item_equal says they differ; other entries stay |
| SwItemViews.ReplacementsSpec | libsocialweb/sw-item-view.c:817-837 | exactly the listed items that replace a held item are reported, each once |
| SwItemViews.RemoveReadyAll | libsocialweb/sw-item-view.c:351-360 | visiting every pending item removes exactly the ready ones |
| SwItemViews.ReadyReversedSpec | libsocialweb/sw-item-view.c:351-360 | the timeout sends every ready pending item once |
| SwItemViews.AddFromIsAddAll | libsocialweb/sw-item-view.c:737-759 | adding a set with distinct ids is adding its members one by one, in any order |
| SwItemViews.FillEmpty | libsocialweb/sw-item-view.c:865-867 | on an empty view adding the whole set is the merge: nothing stale, nothing replaced, everything new |
| SwItemViews.SetFromSetMerges | libsocialweb/sw-item-view.c:858-890 | removing current minus new, updating from new and adding new minus current leaves the merged table, and the reported changes are exactly the new items that differ from the held ones |
| SwItemViews.IdTableSpec | libsocialweb/sw-item-view.c:748-755 | a collection with one item per id, stored by id, is a table keyed by id holding exactly its ids, each item under its own id |
| SwItemViews.IdTableOfKeyed | libsocialweb/sw-item.c:247-251 | a set keyed by id (sw_item_set_new) holds one item per id and is its own id table |
| SwItemViews.MergedByIdKeyed | libsocialweb/sw-view.c:199 | for an id-keyed new set, the stale items are exactly the held ones whose id it lacks, the general merge is Merged, and being replaced does not depend on the removal |
| SwItemViews.MergedByOfMissing | libsocialweb/sw-item-view.c:869-873 | dropping the held ids the new table lacks and merging gives Merged |
| SwItemViews.SetFromSetMergesBy | libsocialweb/sw-item-view.c:868-889 | removing any stale set, updating from the new items and adding those whose id was not held leaves MergedBy, and the reported changes are exactly the new items that replace an entry still held |
| SwItemViews.UpdatedEntriesFromTable | libsocialweb/sw-item-view.c:804-844 | updating from a list with distinct ids replaces exactly the held entries the list's id table holds a differing item for |
| SwItemViews.AddedFromTable | libsocialweb/sw-item-view.c:884-885 | adding the new items whose id was not held completes the merge |
| SwItemViews.FillEmptyBy | libsocialweb/sw-item-view.c:865-867 | on an empty view adding the whole set leaves the set's id table |
| SwItemViews.IdentityReplyAlternates | libsocialweb/sw-set.c:176-196 | with an identity set of new objects for the ids the view holds, every held item is stale and none is added back, so the view empties; the next such reply fills it |
| SwItemViews.ObjectPathsDistinct | libsocialweb/sw-item-view.c:168-180 | views created at different counts get different object paths |
| SwItemViews.PathCounter.constructor | libsocialweb/sw-item-view.c:172 | the static counter starts at 0 |
| SwItemViews.PathCounter.MakeObjectPath | libsocialweb/sw-item-view.c:168-180 | the path names the current count, which then goes up by one |
| SwItemViews.DiffEventsInOrder | libsocialweb/sw-item-view.c:865-890 | the signals of the three steps are those of the difference, in order |
| SwItemViews.RefreshIn | libsocialweb/sw-item-view.c:442-466 | the set holding the changed object holds its new state |
| SwItemViews.PendOne | libsocialweb/sw-item-view.c:576-595 | a ready item becomes a payload; another gets a readiness handler and joins the pending set |
| SwItemViews.PendNotReady | libsocialweb/sw-item-view.c:576-596 | ready items become payloads, the others wait with a readiness handler, and every item gets a change handler |
| SwItemViews.ReplaceChanged | libsocialweb/sw-item-view.c:817-840 | each listed item with a held id that differs replaces the held one and is reported |
| SwItemViews.TakeReady | libsocialweb/sw-item-view.c:351-360 | each ready pending item is prepended to the list to send and leaves the pending set |
| SwItemViews.TakeReadyAll | libsocialweb/sw-item-view.c:338-369 | the pending set keeps exactly the items not ready, and the ready ones are all sent, each once |
| SwItemViews.SwItemView.constructor | libsocialweb/sw-item-view.c:251-263 | a new view holds nothing, waits for nothing, has no timeout and has sent nothing |
| SwItemViews.SwItemView.AddItems | libsocialweb/sw-item-view.c:565-602 | the ready items go out in one ItemsAdded, even when empty; the others wait with a readiness handler |
| SwItemViews.SwItemView.UpdateItems | libsocialweb/sw-item-view.c:612-643 | the ready items go out in one ItemsChanged when there are any |
| SwItemViews.SwItemView.RemoveItems | libsocialweb/sw-item-view.c:658-692 | one ItemsRemoved with a (service, id) pair per item, even when empty |
| SwItemViews.SwItemView.StoreUids | libsocialweb/sw-item-view.c:748-755 | each item is stored under its id |
| SwItemViews.SwItemView.DropUids | libsocialweb/sw-item-view.c:783-789 | each item's id leaves the uid table |
| SwItemViews.SwItemView.AddFromSet | libsocialweb/sw-item-view.c:737-759 | the set's items join the current set and the uid table and are sent through add_items |
| SwItemViews.SwItemView.RemoveFromSet | libsocialweb/sw-item-view.c:771-793 | the set's items leave the current set and the uid table and go out in one ItemsRemoved |
| SwItemViews.SwItemView.UpdateExisting | libsocialweb/sw-item-view.c:804-844 | an item whose id is held replaces the held one, and is reported changed, exactly when sw_item_equal says they differ |
| SwItemViews.SwItemView.RemoveAnyFromSet | libsocialweb/sw-item-view.c:872-873 | a non-empty stale set is removed; an empty one does nothing |
| SwItemViews.SwItemView.AddAnyFromSet | libsocialweb/sw-item-view.c:884-885 | a non-empty new set is added; an empty one does nothing |
| SwItemViews.SwItemView.Differences | libsocialweb/sw-item-view.c:869-870 | removed holds the held items the new set does not find under its own key (for an identity set, every held item that is not the same object); added holds the new items whose id the view does not hold |
| SwItemViews.SwItemView.ApplyDifference | libsocialweb/sw-item-view.c:868-889 | for a new set of any keying: the stale items leave, the view ends holding MergedBy of what it held, the new set's id table and the stale ids, and the changes reported are exactly the new items that replace a kept item |
| SwItemViews.SwItemView.UpdateThenAdd | libsocialweb/sw-item-view.c:875-885 | update_existing visits every new item once and reports the replacements, then the items of added join the view |
| SwItemViews.SwItemView.FillFromSet | libsocialweb/sw-item-view.c:865-867 | on an empty view the whole set is added and the view holds the set's id table |
| SwItemViews.SwItemView.SetFromSet | libsocialweb/sw-item-view.c:858-890 | for a new set of any keying with one item per id: the view ends holding MergedBy of what it held, the set's id table and the ids of the items the set did not find, and sends exactly the difference's signals |
| SwItemViews.SwItemView.Refresh | libsocialweb/sw-item-view.c:442-466 | every stored snapshot of the changed object takes its new state |
| SwItemViews.SwItemView.ItemReadyNotify | libsocialweb/sw-item-view.c:375-402 | once ready, the handler is dropped and the pending timeout is installed unless there is one |
| SwItemViews.SwItemView.PendingTimeoutFires | libsocialweb/sw-item-view.c:338-369 | exactly the ready pending items leave the pending set and go out through add_items; the timeout is cleared |
| SwItemViews.SwItemView.ItemChanged | libsocialweb/sw-item-view.c:442-466 | a change to an item not ready is ignored; a ready one joins the changed list once and the refresh timeout is installed |
| SwItemViews.SwItemView.ChangedTimeoutFires | libsocialweb/sw-item-view.c:426-440 | the changed list goes out through update_items and is emptied; the timeout is cleared |
| SwItemViews.SwItemView.RemoveByUid | libsocialweb/sw-item-view.c:892-940 | a known uid leaves the current set and the uid table and its item goes out in ItemsRemoved; an unknown uid changes nothing |
| SwSets.HasIffEqualMember | libsocialweb/sw-set.c:121-129 | an object is found exactly when some member has its key |
| SwSets.AddReplacesEqual | libsocialweb/sw-set.c:101-109 | the added object replaces any equal member, the set grows only when there was none, other members stay |
| SwSets.RemoveLeavesNoEqual | libsocialweb/sw-set.c:111-119 | no member equal to the removed object is left |
| SwSets.MembersOfInjective | libsocialweb/sw-set.c:244-256 | a table built from a key-injective collection holds exactly that collection |
| SwSets.RemovedAccepted | libsocialweb/sw-set.c:280-304 | dropping the members a predicate accepts leaves those it rejects and shrinks the table by the number accepted |
| SwSets.SwSet.constructor | libsocialweb/sw-set.c:54-76 | a new set is empty with one reference and the given equality |
| SwSets.SwSet.Ref | libsocialweb/sw-set.c:78-87 | a live set gains a reference; a dead one is refused |
| SwSets.SwSet.Unref | libsocialweb/sw-set.c:89-99 | one reference is dropped, and the last one frees the table |
| SwSets.SwSet.Add | libsocialweb/sw-set.c:101-109 | the object replaces the member with its key and is found afterwards |
| SwSets.SwSet.Remove | libsocialweb/sw-set.c:111-119 | the member with the object's key leaves and the object is no longer found |
| SwSets.SwSet.HasMember | libsocialweb/sw-set.c:121-129 | true exactly when some member is equal to the object |
| SwSets.SwSet.Size | libsocialweb/sw-set.c:307-313 | the number of members |
| SwSets.SwSet.IsEmpty | libsocialweb/sw-set.c:131-137 | true exactly when the set has no member |
| SwSets.SwSet.Empty | libsocialweb/sw-set.c:139-145 | the set has no member afterwards |
| SwSets.SwSet.AddFrom | libsocialweb/sw-set.c:200-208 | every member of the other set becomes a member, replacing the equal one; members without an equal stay |
| SwSets.SwSet.RemoveFrom | libsocialweb/sw-set.c:210-228 | no member equal to a member of the other set is left, and nothing else leaves |
| SwSets.SwSet.Union | libsocialweb/sw-set.c:159-174 | a new identity set holding the members of both sets |
| SwSets.SwSet.Difference | libsocialweb/sw-set.c:177-198 | a new identity set holding the members for which the other set has no equal |
| SwSets.SwSet.AsList | libsocialweb/sw-set.c:230-242 | every member exactly once |
| SwSets.SwSet.ForeachRemove | libsocialweb/sw-set.c:280-304 | exactly the members the predicate accepts leave, and their number is returned |
| SwSets.SwSet.Filter | libsocialweb/sw-set.c:315-340 | a new set with the same equality holding exactly the members the predicate accepts |
| SwSets.FromList | libsocialweb/sw-set.c:244-256 | a new identity set of the list's objects |
| SwUtils.BucketFrom | libsocialweb/sw-utils.c:128-133 | the bucket length stays at most nine and within the bytes, and stops before a final NUL |
| SwUtils.BucketStops | libsocialweb/sw-utils.c:128-133 | the bucket holds no ';' or NUL and ends at the first of them, at the end, or after nine bytes |
| SwUtils.BucketStable | libsocialweb/sw-utils.c:128-133 | bytes beyond the terminator are never read |
| SwUtils.Scan | libsocialweb/sw-utils.c:150-155 | sscanf's value is a 32-bit unsigned number |
| SwUtils.Number | libsocialweb/sw-utils.c:150-155 | as intended a number is refused exactly when it is negative; as written it always names a 32-bit code point |
| SwUtils.CodePoint | libsocialweb/sw-utils.c:137-160 | a named code point always fits 32 bits |
| SwUtils.Utf8RoundTrip | libsocialweb/sw-utils.c:162 | decoding the UTF-8 bytes written for a code point below 2^31 gives it back |
| SwUtils.SignedReferenceGrows | libsocialweb/sw-utils.c:155-175 | as written "&#-1;" names 0xffffffff, whose six bytes are longer than the five-byte reference |
| SwUtils.IntendedAgreesUnlessNegative | libsocialweb/sw-utils.c:150-160 | as intended a reference names what sscanf reads unless the number is negative, which names nothing |
| SwUtils.PlusReferenceNamesDigits | libsocialweb/sw-utils.c:155 | "&#+65;" names 'A' in both readings |
| SwUtils.NegativeReferenceKept | libsocialweb/sw-utils.c:152-160 | as intended "&#-1;" names nothing and stays in place |
| SwUtils.ReferenceFits | libsocialweb/sw-utils.c:164-168 | as intended a reference's UTF-8 bytes never outnumber its bucket plus one, so the replacement fits where the reference was |
| SwUtils.MemMoved | libsocialweb/sw-utils.c:175 | the bytes below the destination and past the move stay; in between come the source bytes |
| SwUtils.Bucket | libsocialweb/sw-utils.c:125-134 | the bucket lies inside the buffer, before its terminator |
| SwUtils.Step | libsocialweb/sw-utils.c:113-179 | one turn keeps the buffer's size and moves forward, still in a terminated buffer |
| SwUtils.Unescape | libsocialweb/sw-utils.c:113-180 | the loop keeps the buffer's size |
| SwUtils.DecodeNotLonger | libsocialweb/sw-utils.c:164-168 | unescaping never makes a string longer |
| SwUtils.UnescapeDecodes | libsocialweb/sw-utils.c:104-186 | a string whose references end in ';' becomes its decoding followed by the terminator, in its own buffer |
| SwUtils.DecodeOnce | libsocialweb/sw-utils.c:178 | "&amp;lt;" unescapes once, to "&lt;" |
| SwUtils.DecodeKeepsUnknown | libsocialweb/sw-utils.c:157-160 | an unknown name such as "&foo;" stays |
| SwUtils.UnterminatedKeepsName | libsocialweb/sw-utils.c:128-175 | "&lt" at the end of the string becomes "<lt" |
| SwUtils.EmptyReferenceEndsString | libsocialweb/sw-utils.c:152-162 | "&#;" names 0, so a NUL is written and the string ends there |
| SwUtils.MemMove | libsocialweb/sw-utils.c:175 | the forward copy leaves what MemMoved says |
| SwUtils.ReadBucket | libsocialweb/sw-utils.c:125-134 | the loop reads the bucket after the '&' |
| SwUtils.UnescapeEntities | libsocialweb/sw-utils.c:104-186 | the buffer is rewritten in place to its unescaping and the same buffer is returned |
| SwUtils.WriteBytes | libsocialweb/sw-utils.c:162 | the code point's bytes are written at the position |
| SwUtils.ReplaceReference | libsocialweb/sw-utils.c:162-178 | the code point's bytes are written at the reference and the rest moved down behind them |
| SwUtils.Gint | libsocialweb/sw-utils.c:92-94 | a number as a gint: in range, and unchanged when it fits |
| SwUtils.GintStep | libsocialweb/sw-utils.c:94 | adding one to a gint gives its successor, or GintMin after GintMax |
| SwUtils.OpIdCounter.constructor | libsocialweb/sw-utils.c:92 | the counter starts at 1 |
| SwUtils.OpIdCounter.Next | libsocialweb/sw-utils.c:89-95 | the call returns the counter's value and adds one to it, wrapping as a gint |
| SwUtils.OpIdsCount | libsocialweb/sw-utils.c:89-95 | until the counter wraps the calls return 1, 2, 3 and so on |
| SwUtils.OpIdsDistinct | libsocialweb/sw-utils.c:89-95 | any 2^32 successive calls return different ids; after GintMax comes GintMin and the ids then repeat |
| SwUtils.SortKeys | libsocialweb/sw-utils.c:67-68 | the keys rearranged into strcmp order |
| SwUtils.SortedUnique | libsocialweb/sw-utils.c:67-68 | there is only one sorted arrangement, so the order the keys come in makes no difference |
| SwUtils.SingleKey | libsocialweb/sw-utils.c:70-74 | a one-entry table feeds its key and then its value |
| SwUtils.HashStringDict | libsocialweb/sw-utils.c:56-80 | NULL for NULL; otherwise the digest of every key followed by its value, keys in strcmp order, whatever order they came in |
| SwUtils.KeysRunIntoValues | libsocialweb/sw-utils.c:70-74 | {"a": "bc"} and {"ab": "c"} hash alike, whatever the digest |
| SwUtils.Utf8 | libsocialweb/sw-utils.c:162 | the bytes g_unichar_to_utf8 writes number as many as the code point's UTF-8 length |
| SwUtils.Replaced | libsocialweb/sw-utils.c:162-176 | writing the code point's bytes over the reference and moving the rest down keeps the buffer's size and the string terminated |
| SwUtils.OpId | libsocialweb/sw-utils.c:89-95 | every id handed out is a gint |
| SwUtils.SortedKeysOf | libsocialweb/sw-utils.c:67-68 | the table's keys, each once, in strcmp order |
| SwViews.SortNewestSpec | libsocialweb/sw-view.c:112 | sorting by date puts the candidates newest first and keeps every one of them |
| SwViews.InsertNewestSpec | libsocialweb/sw-view.c:112 | inserting an item into a newest-first list keeps it newest first and adds exactly that item |
| SwViews.ServiceMax | libsocialweb/sw-view.c:115 | the quota is the least number that, times the number of services, covers count |
| SwViews.FirstPassParts | libsocialweb/sw-view.c:127-153 | the first loop only moves items from the list into the new set, never more than count, and leaves the cursor on the list |
| SwViews.FirstPassQuota | libsocialweb/sw-view.c:127-153 | in the first loop no service contributes more than its quota |
| SwViews.FirstPassSkips | libsocialweb/sw-view.c:134-144 | the first loop skips an item only when its service already has its quota |
| SwViews.FirstPassNewestFirst | libsocialweb/sw-view.c:127-153 | the first loop walks the list in order, so on a newest-first list it takes items newest first |
| SwViews.FirstPassSpec | libsocialweb/sw-view.c:127-153 | on a newest-first list the first loop takes items newest first, none beyond a service's quota, skips only at the quota, and takes at most count |
| SwViews.PassStops | libsocialweb/sw-view.c:138-143 | at the last link with its service full the first loop stops where it is |
| SwViews.MungeIntendedSpec | libsocialweb/sw-view.c:155-164 | with the rewind to the head of the list, the selection holds min(count, candidates) items of the list, the first loop's items first |
| SwViews.MungeWrittenSpec | libsocialweb/sw-view.c:155-164 | as written the selection never exceeds count and only holds items of the list |
| SwViews.MungeWrittenLosesSkipped | libsocialweb/sw-view.c:157 | with a1 and a2 from one service, b1 from another and a quota of one, the code as written shows a1 and b1 only; the rewind to the head shows all three |
| SwViews.SelectionFrom | libsocialweb/sw-view.c:155-164 | the selection holds at most count items, each one of the list |
| SwViews.Candidates | libsocialweb/sw-view.c:94-109 | the list holds exactly the ready, non-banned members of all_items, each once |
| SwViews.MungeItems | libsocialweb/sw-view.c:83-173 | the new id-keyed set holds the intended selection from the ready, non-banned items sorted newest first, with the quota of ceil(count / services) |
| SwViews.TakeFirstPass | libsocialweb/sw-view.c:127-153 | the loop ends where the first pass ends, with the set holding the items it took |
| SwViews.FillUp | libsocialweb/sw-view.c:155-164 | the second loop adds items from the head of what is left until the set holds count or the list is exhausted |
| SwViews.RefreshedSpec | libsocialweb/sw-view.c:221-225 | after a report every item of the service is one it reported, other services' items stay unless the report holds their id, and every reported item is in |
| SwViews.ReplaceService | libsocialweb/sw-view.c:221-225 | the service's items leave the set and the reported set, if any, is added |
| SwViews.SwView.constructor | libsocialweb/sw-view.c:466-473 | a new view with an empty item set, not running, with no refresh timeout |
| SwViews.SwView.AddService | libsocialweb/sw-view.c:476-490 | the service joins the end of the view's list |
| SwViews.SwView.Recalculate | libsocialweb/sw-view.c:185-200 | a stopped view is untouched; a running one shows the munged selection, and what changed is published as removed, changed and added items |
| SwViews.SwView.ServiceRefreshed | libsocialweb/sw-view.c:202-228 | the report is saved to the cache, or the cache dropped for NULL; all_items swaps the service's items for the report; a running view then shows at most count items of all_items |
| SwViews.SwView.StartRefresh | libsocialweb/sw-view.c:233-248 | every service is asked to refresh, in order, and the timeout stays |
| SwViews.SwView.InstallRefreshTimeout | libsocialweb/sw-view.c:272-279 | a timeout is installed only when none is |
| SwViews.SwView.RemoveRefreshTimeout | libsocialweb/sw-view.c:281-288 | an installed timeout is removed and the id reset to 0 |
| SwViews.SwView.LoadCacheAll | libsocialweb/sw-view.c:250-270 | each service's cached set is loaded and handled as its report, in the order of the services |
| SwViews.SwView.LoadOne | libsocialweb/sw-view.c:256-268 | one service's cached set is loaded and handled as its report |
| SwViews.SwView.OnlineNotify | libsocialweb/sw-view.c:290-305 | going online installs the timeout and, when running, loads the cache and refreshes every service; going offline removes the timeout |
| SwViews.SwView.Start | libsocialweb/sw-view.c:307-328 | the view runs, every service starts, and then it behaves as on the current online state; offline it loads the cache all the same |
| SwViews.SwView.StartServices | libsocialweb/sw-view.c:316-319 | every service is started, in order |
| SwViews.SwView.Refresh | libsocialweb/sw-view.c:330-340 | the timeout is reinstalled and every service is asked to refresh |
| SwViews.StartCalls | libsocialweb/sw-view.c:316-319 | one sw_service_start per service, in the order of the services |
| SwViews.RefreshCalls | libsocialweb/sw-view.c:239-245 | one sw_service_refresh per service, in the order of the services |
| TwitterContactView.Lookups | services/twitter/twitter-contact-view.c:355-391 | one users/lookup parameter per group of ids |
| TwitterContactView.GroupsShape | services/twitter/twitter-contact-view.c:355-391 | every id goes into exactly one lookup, in order; no lookup is empty or holds more than the maximum, and only the last holds fewer |
| TwitterContactView.LookupsSnoc | services/twitter/twitter-contact-view.c:372-390 | a group sent after whole groups is the next lookup, its ids joined with commas |
| TwitterContactView.OneIdPerLookup | services/twitter/twitter-contact-view.c:48 | with TWITTER_LOOKUP_MAX at 1 each id is a lookup of its own |
| TwitterContactView.ExtendJoins | services/twitter/twitter-contact-view.c:359-369 | extending the string being built joins one more id with a comma |
| TwitterContactView.IdsOf | services/twitter/twitter-contact-view.c:357 | the text of each id node, in order |
| TwitterContactView.ContactProps | services/twitter/twitter-contact-view.c:197-209 | the contact holds the screen name as id, the url and name exactly when given, and the current time as date, and nothing else |
| TwitterContactView.MakeContact | services/twitter/twitter-contact-view.c:180-216 | no contact without a screen name; otherwise its id, url, name and date, and an avatar fetch exactly when the profile image url has text |
| TwitterContactView.TwitterContactView.constructor | services/twitter/twitter-contact-view.c:603-610 | a stopped view with no call outstanding, an empty working set and the lookup maximum |
| TwitterContactView.TwitterContactView.GetIds | services/twitter/twitter-contact-view.c:396-430 | any query but "people" aborts; otherwise outstanding calls are cancelled, the working set emptied and friends/ids asked for the user |
| TwitterContactView.TwitterContactView.GotIds | services/twitter/twitter-contact-view.c:326-394 | the call leaves the list; an error or an unparsable reply stops there; otherwise one users/lookup per group of ids is sent and joins the list |
| TwitterContactView.TwitterContactView.SendLookups | services/twitter/twitter-contact-view.c:355-391 | the lookups sent are exactly the groups of the ids, each a new call on the list |
| TwitterContactView.TwitterContactView.SendLookup | services/twitter/twitter-contact-view.c:374-386 | one new users/lookup call is on the list and sent |
| TwitterContactView.TwitterContactView.UpdateIfDone | services/twitter/twitter-contact-view.c:251-271 | once no call is outstanding the working set goes to the view and to the cache and is emptied; before that nothing changes |
| TwitterContactView.TwitterContactView.GotContacts | services/twitter/twitter-contact-view.c:274-323 | the call leaves the list; on success a contact with an id that is not banned joins the working set, replacing one with that id, and the view updates once no call is outstanding |
| TwitterContactView.TwitterContactView.Start | services/twitter/twitter-contact-view.c:461-478 | a started view does nothing; otherwise the timer is armed, the cached set shown if there is one, and the ids asked for |
| TwitterContactView.TwitterContactView.Stop | services/twitter/twitter-contact-view.c:480-492 | the timer is removed |
| TwitterContactView.TwitterContactView.UserChanged | services/twitter/twitter-contact-view.c:500-514 | the view is emptied and the cache dropped |
| TwitterContactView.TwitterContactView.CapabilitiesChanged | services/twitter/twitter-contact-view.c:516-539 | valid credentials ask for the ids again and arm the timer if it is not armed; otherwise the timer is removed |
| TwitterContactView.TwitterContactView.Dispose | services/twitter/twitter-contact-view.c:135-167 | every outstanding call is cancelled and the timer removed |
| TwitterItemView.AlnumRun | services/twitter/twitter-item-view.c:372 | the run of letters and digits the group takes, stopping at the first other character |
| TwitterItemView.FirstMatch | services/twitter/twitter-item-view.c:182 | the leftmost position where the link pattern matches, or none when it matches nowhere |
| TwitterItemView.TwitpicId | services/twitter/twitter-item-view.c:186 | a picture id exactly when the text holds a link, and then a non-empty run of letters and digits |
| TwitterItemView.RemoveWithoutMatch | services/twitter/twitter-item-view.c:192-194 | text without a link is left as it is |
| TwitterItemView.RemoveUpToFirst | services/twitter/twitter-item-view.c:192-194 | the text before the first link is kept, the link cut, and the search goes on after it |
| TwitterItemView.RemoveChangesIffMatch | services/twitter/twitter-item-view.c:182-194 | cutting the links changes the text exactly when it holds one |
| TwitterItemView.DotMatchesAnyCharacter | services/twitter/twitter-item-view.c:372 | the pattern as written takes "http://twitpicXcom/ab" for a link with id "ab"; with the dot read literally it is no link |
| TwitterItemView.LeadLen | services/twitter/twitter-item-view.c:139-140 | the leading run of white space and hyphens |
| TwitterItemView.TrailLen | services/twitter/twitter-item-view.c:146-151 | the trailing run of white space and hyphens |
| TwitterItemView.TrimmedShape | services/twitter/twitter-item-view.c:131-152 | trimming cuts white space and hyphens at both ends and leaves the middle unchanged, starting and ending with neither |
| TwitterItemView.TrimmedIdempotent | services/twitter/twitter-item-view.c:131-152 | trimming twice is trimming once |
| TwitterItemView.TrimmedKeepsClean | services/twitter/twitter-item-view.c:131-152 | text that starts and ends with neither is left as it is |
| TwitterItemView.CleanupTwitpic | services/twitter/twitter-item-view.c:131-152 | the string is rewritten in place to its trimmed text followed by NULs |
| TwitterItemView.SkipLeading | services/twitter/twitter-item-view.c:139-140 | the loop stops at the first character that is neither white space nor a hyphen |
| TwitterItemView.MoveToFront | services/twitter/twitter-item-view.c:144 | the characters from start and the NUL are moved to the front; the tail stays |
| TwitterItemView.CutTrailing | services/twitter/twitter-item-view.c:146-151 | trailing white space and hyphens are overwritten with NULs until another character is met |
| TwitterItemView.AuthorProps | services/twitter/twitter-item-view.c:165-179 | the item holds the author's screen name, the permalink as id and url, and the author's name |
| TwitterItemView.TextProps | services/twitter/twitter-item-view.c:181-207 | a status with a picture link fetches its thumbnail and takes the trimmed text without links as title and the picture page as url; any other keeps its text as content |
| TwitterItemView.DatedProps | services/twitter/twitter-item-view.c:210-215 | the date is set and the location only when the user node gives one; the rest stays |
| TwitterItemView.ItemAuthorFields | services/twitter/twitter-item-view.c:165-215 | a status's item carries the permalink, author and date |
| TwitterItemView.ItemTextFields | services/twitter/twitter-item-view.c:181-207 | a status's item is either a picture item or a plain one with its text as content |
| TwitterItemView.MakeItemFields | services/twitter/twitter-item-view.c:154-223 | every item is filed under its permalink; a picture status becomes a picture item with a clean title, any other keeps its text |
| TwitterItemView.PictureTitleClean | services/twitter/twitter-item-view.c:192-198 | a picture title neither starts nor ends with white space or a hyphen |
| TwitterItemView.StatusSetCoversReply | services/twitter/twitter-item-view.c:282-290 | every status of the reply has its permalink in the set, and every member is the item of one of the statuses |
| TwitterItemView.TwitterItemView.constructor | services/twitter/twitter-item-view.c:367-376 | a stopped view that has sent nothing |
| TwitterItemView.TwitterItemView.Start | services/twitter/twitter-item-view.c:326-341 | a started view does nothing; otherwise the timer is armed and the timeline asked for at once |
| TwitterItemView.TwitterItemView.Timeout | services/twitter/twitter-item-view.c:316-324 | the timer asks for the timeline again |
| TwitterItemView.TwitterItemView.Dispose | services/twitter/twitter-item-view.c:94-111 | the timer is removed |
| TwitterItemView.TwitterItemView.GotStatusUpdates | services/twitter/twitter-item-view.c:257-296 | an error or an unusable reply changes nothing; otherwise the reply's item set is shown |
| TwitterItemView.StartTwice | services/twitter/twitter-item-view.c:326-341 | starting twice arms the timer once and sends one request |
| TwitterStream.HeaderOfDigits | services/twitter/twitter-item-stream.c:252 | a run of digits ended by another character reads as its decimal value |
| TwitterStream.Process | services/twitter/twitter-item-stream.c:245-305 | framing as intended never grows the buffer |
| TwitterStream.ProcessPiece | services/twitter/twitter-item-stream.c:245-305 | a whole keep-alive or frame at the front is taken off, its payload handed out, and framing goes on with what follows |
| TwitterStream.ProcessFrame | services/twitter/twitter-item-stream.c:252-301 | a whole frame at the front hands out its payload |
| TwitterStream.FrameFront | services/twitter/twitter-item-stream.c:252-266 | a frame's header reads as its payload's length and the newline right after it ends the header |
| TwitterStream.PartialPieceWaits | services/twitter/twitter-item-stream.c:246-303 | part of a keep-alive or frame is left in the buffer untouched |
| TwitterStream.PartialHeaderWaits | services/twitter/twitter-item-stream.c:252-257 | part of a header waits for its newline |
| TwitterStream.PartialPayloadWaits | services/twitter/twitter-item-stream.c:262-303 | a frame whose payload is short waits |
| TwitterStream.ProcessPrefix | services/twitter/twitter-item-stream.c:240-305 | any prefix of a well-formed stream hands out the payloads of the frames wholly inside it and keeps the rest buffered |
| TwitterStream.WholeStream | services/twitter/twitter-item-stream.c:240-305 | once the whole stream has arrived every payload has been handed out and nothing is buffered |
| TwitterStream.ChunksCompose | services/twitter/twitter-item-stream.c:240-243 | the buffer left by earlier chunks, with the next chunk appended, frames as the longer prefix would at once |
| TwitterStream.EraseFront | services/twitter/twitter-item-stream.c:247 | g_string_erase never lengthens the string |
| TwitterStream.RoundAsWritten | services/twitter/twitter-item-stream.c:252-301 | one round of the frame loop as written that takes a frame shortens the buffer; a header read with no newline in the window is Undefined, as newline_pos is then computed from NULL |
| TwitterStream.SplitHeaderUndefined | services/twitter/twitter-item-stream.c:252-262 | as written a chunk "5\r" ending inside a header reaches the subtraction from NULL; as intended it waits for its newline |
| TwitterStream.Window | services/twitter/twitter-item-stream.c:254-256 | the newline is searched for among at most the buffered bytes |
| TwitterStream.LoneCrHangs | services/twitter/twitter-item-stream.c:246-249 | as written a chunk of a lone carriage return loops for ever; as intended it waits for its newline |
| TwitterStream.KeepAlivesShiftCount | services/twitter/twitter-item-stream.c:243-262 | as written two keep-alives leave buf_size four bytes ahead, so a five-byte frame with two bytes in is handed out as "ab" and "cde" is never framed; as intended the frame waits and then comes out whole |
| TwitterStream.KeepAliveAsWritten | services/twitter/twitter-item-stream.c:243-249 | as written a keep-alive is erased but still counted in buf_size |
| TwitterStream.FramesWait | services/twitter/twitter-item-stream.c:252 | no header at the front stops the loop |
| TwitterStream.RoundTakes | services/twitter/twitter-item-stream.c:262-301 | with buf_size covering the buffer, a wholly buffered frame is taken off |
| TwitterStream.RoundOverruns | services/twitter/twitter-item-stream.c:262-301 | with buf_size counting past the buffer, a longer frame is handed out short and nothing after it is erased |
| TwitterStream.KeepAliveBetweenFrames | services/twitter/twitter-item-stream.c:252-257 | as written a keep-alive after a frame makes the next newline the keep-alive's, so the second header "1" is handed out as a payload |
| TwitterStream.TwoFramesIntended | services/twitter/twitter-item-stream.c:245-305 | as intended "2\r\nab\r\n1\r\nc" hands out "ab" and "c" |
| TwitterStream.KeepAlivesThenPartial | services/twitter/twitter-item-stream.c:245-305 | as intended two keep-alives are dropped and a partial frame waits |
| TwitterStream.WholeFive | services/twitter/twitter-item-stream.c:252-301 | as intended the five-byte frame comes out whole once it has arrived |
| TwitterStream.StatusItemFields | services/twitter/twitter-item-stream.c:148-212 | the item's id and url are the permalink from the screen name and status id, with the status's author, text and parsed date |
| TwitterStream.StatusUrlsDistinct | services/twitter/twitter-item-stream.c:167-169 | two statuses of one author have different permalinks |
| TwitterStream.Accepted | services/twitter/twitter-item-stream.c:268-297 | a payload that does not parse yields nothing; a status is kept only when its text contains the keywords |
| TwitterStream.FilterRequest | services/twitter/twitter-item-stream.c:315-336 | a POST to 1/statuses/filter.json with the keywords' spaces turned into commas as "track" and "delimited" set to "length" |
| TwitterStream.TwitterItemStream.constructor | services/twitter/twitter-item-stream.c:388-394 | a stream with its parameters, not started and with no buffer |
| TwitterStream.TwitterItemStream.Start | services/twitter/twitter-item-stream.c:308-345 | without keywords nothing is sent; otherwise the filter request goes out |
| TwitterStream.TwitterItemStream.Chunk | services/twitter/twitter-item-stream.c:214-306 | an error changes nothing; otherwise the chunk joins the buffer, every complete frame is taken off, and matching statuses are added |
| TwitterStream.TwitterItemStream.HandOut | services/twitter/twitter-item-stream.c:268-297 | each payload is handed to the parser in turn and each matching status added |
| TwitterStream.TwitterItemStream.TakeFrame | services/twitter/twitter-item-stream.c:268-297 | one payload's status is added when it matches |
| TwitterStream.FrameAll | services/twitter/twitter-item-stream.c:252-305 | the loop takes off the payloads of the complete frames at the front, in order |
| TwitterStream.NextFrame | services/twitter/twitter-item-stream.c:246-301 | one round erases leading keep-alives and then takes a complete frame off, when there is one |
| TwitterStream.TwoChunksFrame | services/twitter/twitter-item-stream.c:240-305 | two chunks hand out the payloads of the frames complete within the bytes fed and keep the rest |
| TwitterStream.TwoChunks | services/twitter/twitter-item-stream.c:214-306 | feeding a stream's bytes in any two chunks hands the parser exactly the payloads of the frames that have fully arrived |
| Vimeo.VimeoService.constructor | services/vimeo/vimeo.c:220-236 | no user and an unbound proxy |
| Vimeo.VimeoService.UserChanged | services/vimeo/vimeo.c:61-90 | an unset or empty user is no user; only a different user is taken, and then the proxy is bound to it and user-changed emitted once |
| Vimeo.VimeoService.QueryOpenView | services/vimeo/vimeo.c:159-194 | "feed" and "own" open a view; any other query is answered with an invalid-query error and opens nothing |
| Vimeo.SameUserTwice | services/vimeo/vimeo.c:61-90 | telling the service the same user twice announces the change at most once |
| Vimeo.ItemProps | services/vimeo/vimeo-item-view.c:227-248 | the item's id and url are the video's url, with its date, and title and author exactly when given |
| Vimeo.VideoItem | services/vimeo/vimeo-item-view.c:227-248 | a video's item is filed under its url, with its title, author and parsed upload date |
| Vimeo.VideoSetMembers | services/vimeo/vimeo-item-view.c:250-299 | the set holds exactly the urls of the reply's videos that are not banned, each with its video's item |
| Vimeo.NodeFromCall | services/vimeo/vimeo-item-view.c:162-193 | a root exactly for a successful call whose payload parsed |
| Vimeo.VideosCall | services/vimeo/vimeo-item-view.c:301-326 | "feed" asks for subscriptions.xml and "own" for videos.xml |
| Vimeo.VimeoItemView.constructor | services/vimeo/vimeo.c:159-194 | a stopped view for a valid query with no call outstanding and nothing shown |
| Vimeo.VimeoItemView.GetStatusUpdates | services/vimeo/vimeo-item-view.c:301-326 | outstanding calls are cancelled, the set emptied, and one new call for the query is sent and listed |
| Vimeo.VimeoItemView.UpdateIfDone | services/vimeo/vimeo-item-view.c:195-217 | once no call is outstanding the set goes to the view and the cache and is emptied; before that nothing changes |
| Vimeo.VimeoItemView.GotVideos | services/vimeo/vimeo-item-view.c:250-299 | the call leaves the list; a failed or unparsable reply ends there; otherwise the reply's videos join the set and the view updates once no call is left |
| Vimeo.VimeoItemView.Merge | services/vimeo/vimeo-item-view.c:279-298 | the reply's set joins the working set, replacing members with the same id, and the view updates once no call is left |
| Vimeo.VimeoItemView.Start | services/vimeo/vimeo-item-view.c:357-374 | a started view does nothing; otherwise the timer is armed, the cached set shown, and the videos asked for |
| Vimeo.VimeoItemView.Stop | services/vimeo/vimeo-item-view.c:376-388 | the timer is removed |
| Vimeo.VimeoItemView.Refresh | services/vimeo/vimeo-item-view.c:390-394 | the videos are asked for again with one call outstanding |
| Vimeo.VimeoItemView.ItemHidden | services/vimeo/vimeo-item-view.c:396-402 | the hidden id is passed on to the view |
| Vimeo.VimeoItemView.UserChanged | services/vimeo/vimeo-item-view.c:404-418 | the view is emptied and the cache dropped |
| Vimeo.RefreshThenReply | services/vimeo/vimeo-item-view.c:250-326 | a refresh followed by its reply shows exactly the reply's set |
| Youtube.DynamicCaps | services/youtube/youtube.c:110-145 | valid or invalid credentials are configured and say which; offline the service is configured exactly when it has a user name and password |
| Youtube.SplitSet | services/youtube/youtube.c:175 | splitting at '=' and newline gives pieces without separators, none for an empty reply |
| Youtube.SplitLoginReply | services/youtube/youtube.c:175 | a login reply splits into "Auth", the token, "YouTubeUser", the nickname and the empty piece after the last newline |
| Youtube.AuthAsWritten | services/youtube/youtube.c:176-186 | as written the check reads past the pieces exactly when the reply is the single piece "Auth" |
| Youtube.BareAuthReadsPastEnd | services/youtube/youtube.c:176-177 | the reply "Auth" makes the check as written read the third piece of a one-piece vector; as intended it is refused |
| Youtube.ParseAuth | services/youtube/youtube.c:176-186 | as intended a reply is accepted exactly when its first piece is "Auth" and its third "YouTubeUser", giving the second as token and the fourth, if any, as nickname |
| Youtube.ParseAuthAgrees | services/youtube/youtube.c:176-186 | the intended check decides as the written one wherever that one stays inside the vector |
| Youtube.LoginReplyAuthorizes | services/youtube/youtube.c:175-183 | a well-formed login reply gives its token and nickname |
| Youtube.LoginCall | services/youtube/youtube.c:209-217 | a POST to ClientLogin carrying the user name as Email and the password as Passwd |
| Youtube.UploadFields | services/youtube/youtube.c:521-522 | an upload's category defaults to "People"; the other fields pass as they are |
| Youtube.YoutubeService.constructor | services/youtube/youtube.c:356-366 | an uninitialised service, offline, with no login, token or view |
| Youtube.YoutubeService.OnlineNotify | services/youtube/youtube.c:195-231 | every notification drops to offline; online with a login sends the ClientLogin request; offline announces the capabilities |
| Youtube.YoutubeService.GotUserAuth | services/youtube/youtube.c:155-193 | a failed call makes the credentials invalid; otherwise the reply decides between valid credentials with its token and nickname, and invalid ones; the capabilities are announced |
| Youtube.YoutubeService.RefreshCredentials | services/youtube/youtube.c:279-286 | the keyring is asked for the www.youtube.com password |
| Youtube.YoutubeService.FoundPassword | services/youtube/youtube.c:236-273 | a found password replaces the login and, online, reconnects; none clears the login and drops to offline; the user change and capabilities are announced either way |
| Youtube.YoutubeService.Init | services/youtube/youtube.c:370-405 | an initialised service stays so; without a developer key it fails; otherwise it starts offline and asks the keyring |
| Youtube.YoutubeService.QueryOpenView | services/youtube/youtube.c:432-468 | "feed" and "own" open a view; any other query is answered with an invalid-query error |
| Youtube.AcceptedLogin | services/youtube/youtube.c:155-193 | whatever the state before, an accepted login leaves valid credentials and the reply's token, and announces them |
| YoutubeItemViews.NodeFromCall | services/youtube/youtube-item-view.c:178-222 | a root exactly for a successful call whose payload parsed into something other than "error_response" |
| YoutubeItemViews.MemoKeepsAnswers | services/youtube/youtube-item-view.c:248-281 | remembering icons saves lookups and changes no answer |
| YoutubeItemViews.VideoFetches | services/youtube/youtube-item-view.c:336-344 | at most the thumbnail, which the item waits for, and the author's icon, which it does not |
| YoutubeItemViews.ItemProps | services/youtube/youtube-item-view.c:296-348 | the item holds the id, date, title, url and author read, each exactly when present |
| YoutubeItemViews.VideoItem | services/youtube/youtube-item-view.c:296-348 | a video's item has the guid as id, the parsed update time, the title, the link as url, the author and its downloads |
| YoutubeItemViews.FeedFunction | services/youtube/youtube-item-view.c:426-429 | "feed" reads users/default/newsubscriptionvideos and "own" users/default/uploads |
| YoutubeItemViews.YoutubeItemView.constructor | services/youtube/youtube-item-view.c:637-644 | a stopped view for a valid query with nothing remembered, sent or shown |
| YoutubeItemViews.YoutubeItemView.GetStatusUpdates | services/youtube/youtube-item-view.c:404-445 | without the service's auth token nothing happens; otherwise the set is emptied and the feed asked for with the token and developer key |
| YoutubeItemViews.YoutubeItemView.AuthorIconUrl | services/youtube/youtube-item-view.c:248-281 | a remembered icon is returned without a lookup; otherwise the user is looked up once and an icon found remembered |
| YoutubeItemViews.YoutubeItemView.MakeItem | services/youtube/youtube-item-view.c:296-348 | the item is the video's item, built with at most one lookup, and the memo stays in agreement with the lookups |
| YoutubeItemViews.YoutubeItemView.GotVideos | services/youtube/youtube-item-view.c:350-402 | a failed, rejected or channel-less reply changes nothing; otherwise the icon memo is cleared, every item not banned joins the set, and the set is shown, cached and emptied |
| YoutubeItemViews.YoutubeItemView.AddItems | services/youtube/youtube-item-view.c:380-389 | each channel item not banned joins the set, with at most one lookup per item |
| YoutubeItemViews.YoutubeItemView.Publish | services/youtube/youtube-item-view.c:391-399 | the view and the cache get the set, which is then emptied |
| YoutubeItemViews.YoutubeItemView.Start | services/youtube/youtube-item-view.c:476-492 | a started view does nothing; otherwise the timer is armed, the cached set shown, and the feed asked for |
| YoutubeItemViews.YoutubeItemView.Stop | services/youtube/youtube-item-view.c:494-506 | the timer is removed |
| YoutubeItemViews.YoutubeItemView.CapabilitiesChanged | services/youtube/youtube-item-view.c:538-562 | the timer is armed exactly when the credentials are valid, and valid credentials refresh the view |
| YoutubeItemViews.YoutubeItemView.UserChanged | services/youtube/youtube-item-view.c:522-536 | the view is emptied and the cache dropped |
| YoutubeItemViews.YoutubeItemView.ItemHidden | services/youtube/youtube-item-view.c:514-520 | the hidden id is passed on to the view |
| YoutubeItemViews.ReplySetMembers | services/youtube/youtube-item-view.c:350-402 | every item of an accepted reply that is not banned is shown, and everything shown is the item of one of the reply's entries |

## Left out

- D-Bus plumbing is not modelled: bus connections, proxies, object registration and the generated interface glue. Emitted signals are event logs, and incoming D-Bus calls are method calls.
- The thin client wrappers are not modelled: sw-client.c, mojito-client.c, mojito-client-service.c, mojito-client-item-view.c and the Last.fm client helpers. They only forward to D-Bus.
- Network I/O is not modelled: REST calls, downloads and the conditional-GET web cache. An outgoing request is a logged record, and each reply or download is an argument of a method call.
- Keyring access (the OAuth and Flickr keyfobs, gnome-keyring callbacks) is an input: the tokens found or not, the password found or not.
- SQLite and file I/O are left out. Reading and writing the cache files and the keys files is an input or a returned value. The banned-id table is a set.
- Main-loop timers (g_timeout_add and the poll loop) are not modelled. An installed timeout is a flag or an id, and its firing is a method call.
- GObject reference counting and memory ownership are not modelled. A released object is tracked only where a use after release is the point, as in digg_call.
- Floating point is not modelled. This covers the upload percentage at services/youtube/youtube.c:497 and the float ceil at libsocialweb/sw-view.c:115.
- SwViews.ServiceMax computes the per-service quota as an integer ceiling. It gives 0 when there are no services, where the C code divides by 0.0; with no services a view holds no items.
- SwViews.SortNewestSpec orders items by their cached date. The C comparator subtracts two time_t values into an int, and that wrap-around is not modelled.
- Foreign libraries are parameters of the members that use them and are not modelled. They are:
  - strptime, mktime and timegm, including the MySpace +8h adjustment;
  - libsoup's date conversion;
  - MD5 in sw_hash_string_dict;
  - the XML and JSON parsers, whose output is a small tree datatype.
- GLib's base64 decoder is not part of this model. Base64.Decode follows its documented leniency: it skips non-alphabet characters, treats '=' as a zero digit that suppresses its byte, and drops a trailing group of fewer than four characters.
- sw_item_equal (declared in sw-item.h, body not part of this model) is a parameter of SwItemViews.SwItemView.
- SwItemViews.SwItemView.ItemChanged models _item_changed_cb, which libsocialweb/sw-item-view.c:481-485 connects to a "changed" signal. sw-item.c defines no such signal (its class_init at libsocialweb/sw-item.c:77-94 installs none), so in the C code the callback never runs. The model keeps it as the handler of an item change.
- SwItems.ItemId reads an item without an "id" property as the empty string. In the C code a missing id reaches g_str_hash(NULL) in the id-keyed sets and crashes. Sets of items without ids are therefore modelled more leniently than the source.
- SwItemViews.SwItemView: sw_item_view_add_item, update_item and remove_item (libsocialweb/sw-item-view.c:503-550) sit between `#if 0` and `#endif` (lines 494-551), so they are not compiled and are not modelled.
- Module loading, the service vfunc dispatchers and the thin wrappers sw-service.c, sw-cacheable.c and sw-debug.c are not modelled. Nor are mojito-service-proxy.c, mojito-view.c, mojito-item.c, the dummy and skeleton services, and the twitter-glib service in services/twitter/twitter.c.
- The libsocialweb-client sw-item.c and sw-contact.c records only count references, and are not modelled.
- ClientViews: the client contact view (libsocialweb-client/sw-client-contact-view.c) runs the same handlers as the client item view. Its contacts carry properties of type a{sas}, modelled as ContactProps, a map from a key to a list of strings. The ClientViews rows cite the item view's lines and name the contact twins.
- ClientViews.ClientView.ItemsRemoved: for contacts, the client registers ContactsRemoved with structs of (string, string list) (libsocialweb-client/sw-client-contact-view.c:288-295). The daemon sends (string, string) pairs (libsocialweb/sw-contact-view.c:614-622), and the handler reads field 1 as a string (line 255). D-Bus demarshalling is not modelled. The model takes the pairs the daemon sends and the handler reads, so a removal batch is a list of uuids.
- SwItemViews.SwItemView.SetFromSet (with ApplyDifference, Differences and FillFromSet): requires the new set to hold at most one item per id. The current set is filled by a hash-table foreach, and the uid table from the reversed key list. With two items of one id, the two tables could keep different items.
- SwContactViews.PathCounter.MakeObjectPath and SwItemViews.PathCounter.MakeObjectPath do not model the 32-bit wrap-around of the static path counter: the counter is unbounded, so paths are proved distinct.
- MojitoSets: mojito-set.c has only new, add, remove, has, is_empty and empty. The Mojito item view also calls add_from, remove_from, difference and as_list, whose bodies are not part of this model. They are modelled as keep-first union, removal by key, keyed difference and a listing predicate.
- MojitoSets: mojito-item-view.c:170 calls `mojito_set_new ()` with no arguments, while mojito-set.h:14 declares it with three. How the view's current set is keyed is therefore unknown. The model keys it by item id, which is an assumption.
- Photobucket.ToGint writes the low 32 bits of a gint64 count as a signed int, as g_value_set_int does.
- Vimeo: vimeo-item-view.c:487 builds its working set with sw_set_new, an identity set keyed by object. The model keys the collected videos by id. The handover to the view with sw_item_view_set_from_set (vimeo-item-view.c:205) is modelled by SwItemViews.SwItemView.SetFromSet for a set of any keying. With an identity set of freshly built items, every refresh of a non-empty view removes all held items and adds none back, so the view alternates between empty and full; see "## Findings".
- LastfmItemView: lastfm-item-view.c:644 also builds its working set with sw_set_new. The model keeps the collected items as a list and logs each handover. The handover at lastfm-item-view.c:214 to sw_item_view_set_from_set has the same alternation as Vimeo's; see "## Findings".
- LastfmContactViews: the contact-building helpers in lastfm-contact-view.c that no code path calls are not modelled. An unconfigured refresh that leaves an unsent call listed is modelled (UnconfiguredRefreshNeverPublishes).
- Myspace: request_avatar, _avatar_downloaded_cb, update_status and _status_updated_cb (services/myspace/myspace.c:363-423) are not modelled. They are a download and a POST with no state of their own.
- The following methods and functions run the corrected half of a finding, not the code as written. Each as-written half is modelled and compared with it under "## Findings".
  - SwViews.MungeItems: rewinds to the head of the list after the first pass (MungeIntended), so skipped items are not lost as in MungeWritten.
  - SwViews.SwView.Recalculate: selects with MungeIntended.
  - SwViews.SwView.ServiceRefreshed: selects with MungeIntended.
  - TwitterStream.TwitterItemStream.Chunk: frames the buffer with Process, the intended framing, not ChunkAsWritten.
  - TwitterStream.FrameAll: frames with Process.
  - TwitterStream.NextFrame: frames with Process.
  - TwitterStream.TwoChunks: frames with Process.
  - SwContactViews.SwContactView.UpdateExisting: compares contacts with the symmetric ContactsEquivalent, not ContactsEqual as sw_contact_equal is written.
  - SwContactViews.SwContactView.ApplyDifference: compares with ContactsEquivalent.
  - SwContactViews.SwContactView.FillFromSet: compares with ContactsEquivalent.
  - SwContactViews.SwContactView.SetFromSet: compares with ContactsEquivalent.
  - TwitterItemView.TextProps: matches the twitpic pattern with a literal '.' (TwitpicId(s, true)), not any character as the regex is written.
  - TwitterItemView.MakeItem: builds on TextProps and matches with a literal '.'.
  - TwitterItemView.TwitterItemView.GotStatusUpdates: builds on MakeItem and matches with a literal '.'.
  - Facebook.FacebookService.Init: uses InitVerdict, which sets an error on every failure, not InitVerdictAsWritten.
  - Digg.RefreshEntries: uses Call, which returns no root for a non-"stories" reply, not CallAsWritten.
  - Digg.DiggService.Refresh: uses Call through RefreshEntries.
  - Flickr.FlickrService.Refresh: runs the code as written when `guarded` is false, and with the evidently intended in-progress mark when it is true.
  - SwUtils.Step: reads a numeric reference with CodePoint(name, false), which refuses a negative number.
  - SwUtils.Unescape: reads numeric references with CodePoint(name, false).
  - SwUtils.UnescapeEntities: reads numeric references with CodePoint(name, false).
  - Youtube.YoutubeService.GotUserAuth: checks the login reply with ParseAuth, which refuses a reply with fewer than three pieces, not AuthAsWritten.

## Findings

| source | as written | input that shows it | evidently intended | confidence | as-written member | corrected member |
|---|---|---|---|---|---|---|
| libsocialweb/sw-view.c:155-164 | after the first pass, `g_list_first` rewinds the cursor; when the first pass deleted the last link the cursor is NULL, and `g_list_first (NULL)` gives NULL, so the second pass never sees the skipped items | three services, count 3 (quota 1), items a1, a2 from service "a" and b1 from "b", newest first: the view shows [a1, b1] | the second pass fills up from the skipped items, giving [a1, b1, a2] | not executed | SwViews.MungeWritten, SwViews.MungeWrittenSpec, SwViews.MungeWrittenLosesSkipped | SwViews.MungeIntended, SwViews.MungeIntendedSpec |
| services/twitter/twitter-item-stream.c:246-249 | the loop that strips a leading "\r\n" erases bytes without lowering buf_size, and spins for ever on a lone '\r' | two chunks "\r\n", then "5\r\nab": "ab" is handed out as a complete frame and "cde" can never be framed; a chunk "\r" never returns | keep-alives are dropped and the count follows the buffer, so the frame waits for its last three bytes | not executed | TwitterStream.KeepAlivesShiftCount, TwitterStream.LoneCrHangs | TwitterStream.Process, TwitterStream.ProcessPrefix, TwitterStream.TwoChunks |
| services/twitter/twitter-item-stream.c:252-262 | when a chunk ends inside a header, sscanf still reads the count but g_utf8_strchr returns NULL, and newline_pos is computed from that NULL | one chunk "5\r": the pointer subtraction and the test at line 262 run on a NULL pointer | the header waits for its newline | not executed | TwitterStream.SplitHeaderUndefined | TwitterStream.PartialHeaderWaits, TwitterStream.Process |
| services/twitter/twitter-item-stream.c:252-257 | `sscanf "%d\r\n"` skips the keep-alive before the next header, but the newline used to find the payload is the keep-alive's | one chunk "2\r\nab\r\n1\r\nc": the payloads handed out are "ab" and "1" | the payloads are "ab" and "c" | not executed | TwitterStream.KeepAliveBetweenFrames | TwitterStream.TwoFramesIntended, TwitterStream.Process |
| services/twitter/twitter-item-view.c:372 | the pattern `http://twitpic.com/([A-Za-z0-9]+)` leaves the '.' unescaped, so it matches any character | "http://twitpicXcom/ab" is taken for the twitpic picture "ab" | only "twitpic.com" links match | not executed | TwitterItemView.DotMatchesAnyCharacter | TwitterItemView.TextProps, TwitterItemView.ItemTextFields |
| services/facebook/facebook.c:390-403 | a keys file without one of its three URLs jumps to `out` with rv FALSE and no GError set | a keys file without BaseUri: the initable fails and its caller reads the message of a NULL error | every failure sets an error | not executed | Facebook.InitVerdictAsWritten, Facebook.IncompleteKeysFileSetsNoError | Facebook.InitVerdict |
| services/digg/digg.c:84-96 | a root that is not "stories" is reported and released, and then returned all the same | an "error" reply document: the caller reads the released root | no content or wrong content gives NULL | not executed | Digg.CallAsWritten, Digg.ErrorRootUsedAfterRelease | Digg.Call |
| services/flickr/flickr.c:275-278 | `refreshing` is checked but never set TRUE, so a refresh in progress does not hold off the next one | two refreshes of a running service: the tokens are looked up twice | a refresh asked for while one is in progress is ignored | not executed | Flickr.RefreshTwiceAsWritten | Flickr.RefreshTwiceGuarded |
| libsocialweb/sw-contact.c:459-492 | sw_contact_equal compares sizes and then only the keys of a; an empty list in a matches a missing key in b, so a key of b can escape the comparison | a = {x: []}, b = {y: ["v"]}, same service: equal(a, b) holds, equal(b, a) does not | a symmetric comparison in which a missing key counts as an empty list | not executed | SwContacts.EqualNotSymmetric | SwContacts.ContactsEquivalent, SwContacts.EquivalentIsEquivalence |
| libsocialweb/sw-utils.c:155 | sscanf's `%u` accepts a sign, so a negative reference wraps to a large code point whose UTF-8 form is longer than the reference it overwrites | "&#-1;" names 0xffffffff, six UTF-8 bytes written over a five-byte reference | a negative number names nothing, and the reference stays in place | not executed | SwUtils.SignedReferenceGrows | SwUtils.NegativeReferenceKept, SwUtils.ReferenceFits, SwUtils.IntendedAgreesUnlessNegative |
| services/vimeo/vimeo-item-view.c:487 | the working set is an identity set (sw_set_new); sw_set_difference looks each item of one set up in the other set's table (libsocialweb/sw-set.c:189-192), so no held item is found in a reply of fresh objects, and items whose id is held are not added back | a view holding videos u1 and u2, then a reply listing u1 and u2 again: the view is emptied; the next reply fills it again | each refresh replaces the held videos by id, as with an id-keyed set (sw_item_set_new) | not executed | SwItemViews.IdentityReplyAlternates, SwItemViews.SwItemView.SetFromSet | SwItemViews.MergedByIdKeyed, SwItemViews.SetFromSetMerges |
| services/lastfm/lastfm-item-view.c:644 | the same identity set is handed to sw_item_view_set_from_set (lastfm-item-view.c:214) | a view holding the recent tracks of two friends, then a reply listing the same tracks: the view is emptied; the next reply fills it again | each refresh replaces the held tracks by id | not executed | SwItemViews.IdentityReplyAlternates, SwItemViews.SwItemView.SetFromSet | SwItemViews.MergedByIdKeyed, SwItemViews.SetFromSetMerges |
| services/youtube/youtube.c:176-177 | once tokens[0] is "Auth", tokens[2] is read without checking that the vector has three entries | the login reply "Auth": the vector is ["Auth", NULL] and tokens[2] is read past its end | a reply with fewer than three pieces is refused | not executed | Youtube.AuthAsWritten, Youtube.BareAuthReadsPastEnd | Youtube.ParseAuth, Youtube.ParseAuthAgrees |
