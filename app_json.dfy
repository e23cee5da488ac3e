/**
  The app.json updater's in-memory edit: the document `JSON.parse` returns,
  navigated along `expo` -> `updates` -> `requestHeaders` with Ruby's
  truthiness, and `requestHeaders["expo-channel-name"]` overwritten.
*/
module AppJson {
  import opened Common
  import RubyHash

  /** A parsed JSON value; objects keep their members in document order. */
  datatype Json =
    | JNull
    | JBool(b: bool)
    | JNumber(literal: string)
    | JString(s: string)
    | JArray(items: seq<Json>)
    | JObject(members: RubyHash.Hash<Json>)

  /** The member names along the path to the channel name. */
  const ExpoMember := "expo"
  const UpdatesMember := "updates"
  const RequestHeadersMember := "requestHeaders"
  const ChannelNameMember := "expo-channel-name"

  /** Where the channel name lives: `expo.updates.requestHeaders["expo-channel-name"]`. */
  const ChannelNamePath: seq<string> := [ExpoMember, UpdatesMember, RequestHeadersMember, ChannelNameMember]

  /** Ruby truthiness: only `nil` (JSON null) and `false` are falsy. */
  predicate Truthy(v: Json) {
    !(v.JNull? || v == JBool(false))
  }

  /** `v[key]`: nil when the key is missing, and nil for a value that is not an object. */
  function Get(v: Json, key: string): Json {
    if v.JObject? then
      match RubyHash.Lookup(v.members, key)
      case Some(x) => x
      case None => JNull
    else JNull
  }

  /** `v[p0][p1]...` along a whole path. */
  function GetPath(v: Json, path: seq<string>): Json
    decreases |path|
  {
    if path == [] then v else GetPath(Get(v, path[0]), path[1..])
  }

  /** `v[key] = x` on an object. */
  function Put(v: Json, key: string, x: Json): (r: Json)
    requires v.JObject?
    ensures r.JObject? && Get(r, key) == x
    ensures forall k :: k != key ==> Get(r, k) == Get(v, k)
  {
    JObject(RubyHash.Store(v.members, key, x))
  }

  /** `root["expo"]`, `root["expo"]["updates"]` and `root["expo"]["updates"]["requestHeaders"]`. */
  function Expo(root: Json): Json {
    Get(root, ExpoMember)
  }

  function Updates(root: Json): Json {
    Get(Expo(root), UpdatesMember)
  }

  function RequestHeaders(root: Json): Json {
    Get(Updates(root), RequestHeadersMember)
  }

  /** The document holds an object at each of `expo`, `expo.updates` and `expo.updates.requestHeaders`. */
  predicate HasRequestHeaders(root: Json) {
    root.JObject? && Expo(root).JObject? && Updates(root).JObject? && RequestHeaders(root).JObject?
  }

  /**
    The edit `update_app_json` makes: when `expo`, `expo.updates` and
    `expo.updates.requestHeaders` are all truthy, store the channel name in
    `requestHeaders`; otherwise `None` (the updater raises and writes nothing).
    It succeeds exactly when the whole path is made of objects, and afterwards
    `requestHeaders["expo-channel-name"]` is the channel name.
  */
  function SetChannelName(root: Json, channel: string): (r: Option<Json>)
    ensures r.Some? <==> HasRequestHeaders(root)
    ensures r.Some? ==> HasRequestHeaders(r.value) && Get(RequestHeaders(r.value), ChannelNameMember) == JString(channel)
  {
    if !(Truthy(Expo(root)) && Truthy(Updates(root)) && Truthy(RequestHeaders(root))) then None
    // a truthy value along the path that is not a Hash is treated as missing
    else if !HasRequestHeaders(root) then None
    else
      Some(Put(root, ExpoMember,
        Put(Expo(root), UpdatesMember,
          Put(Updates(root), RequestHeadersMember,
            Put(RequestHeaders(root), ChannelNameMember, JString(channel))))))
  }

  /** Every proper prefix of `path` leads to an object, so `v[p0]...[pn] = x` can be performed. */
  predicate ObjectsAlong(v: Json, path: seq<string>)
    decreases |path|
  {
    v.JObject? && (|path| > 1 ==> ObjectsAlong(Get(v, path[0]), path[1..]))
  }

  /** `v[p0][p1]...[pn] = x`: the nested assignment, written as one store per level. */
  function PutPath(v: Json, path: seq<string>, x: Json): Json
    requires path != [] && ObjectsAlong(v, path)
    decreases |path|
  {
    if |path| == 1 then Put(v, path[0], x)
    else Put(v, path[0], PutPath(Get(v, path[0]), path[1..], x))
  }

  /** Path `p` leaves `target` somewhere: it is neither a prefix nor an extension of it. */
  predicate Diverges(p: seq<string>, target: seq<string>) {
    exists i :: 0 <= i < |p| && i < |target| && p[i] != target[i]
  }

  /** After a nested assignment the path reads back the assigned value. */
  lemma {:induction false} PutPathReadsBack(v: Json, path: seq<string>, x: Json)
    requires path != [] && ObjectsAlong(v, path)
    ensures GetPath(PutPath(v, path, x), path) == x
    decreases |path|
  {
    if |path| > 1 {
      PutPathReadsBack(Get(v, path[0]), path[1..], x);
    }
  }

  /** A nested assignment leaves every value off its path where it was. */
  lemma {:induction false} PutPathKeepsOtherPaths(v: Json, path: seq<string>, x: Json, p: seq<string>)
    requires path != [] && ObjectsAlong(v, path)
    requires Diverges(p, path)
    ensures GetPath(PutPath(v, path, x), p) == GetPath(v, p)
    decreases |path|
  {
    var i :| 0 <= i < |p| && i < |path| && p[i] != path[i];
    if p[0] != path[0] {
      assert Get(PutPath(v, path, x), p[0]) == Get(v, p[0]);
    } else {
      assert i > 0 && p[1..][i - 1] != path[1..][i - 1];
      PutPathKeepsOtherPaths(Get(v, path[0]), path[1..], x, p[1..]);
    }
  }

  /** The updater's three-level assignment is the nested assignment along the channel-name path. */
  lemma SetChannelNameIsPutPath(root: Json, channel: string)
    requires HasRequestHeaders(root)
    ensures ObjectsAlong(root, ChannelNamePath)
    ensures SetChannelName(root, channel) == Some(PutPath(root, ChannelNamePath, JString(channel)))
  {
    var p3 := [ChannelNameMember];
    var p2 := [RequestHeadersMember] + p3;
    var p1 := [UpdatesMember] + p2;
    assert ChannelNamePath == [ExpoMember] + p1;
    var x := JString(channel);
    assert ObjectsAlong(RequestHeaders(root), p3);
    assert ObjectsAlong(Updates(root), p2);
    assert ObjectsAlong(Expo(root), p1);
    var h := PutPath(RequestHeaders(root), p3, x);
    assert h == Put(RequestHeaders(root), ChannelNameMember, x);
    var u := PutPath(Updates(root), p2, x);
    assert u == Put(Updates(root), RequestHeadersMember, h);
    var e := PutPath(Expo(root), p1, x);
    assert e == Put(Expo(root), UpdatesMember, u);
    assert PutPath(root, ChannelNamePath, x) == Put(root, ExpoMember, e);
  }

  /**
    After the edit, the channel name is found at `expo.updates.requestHeaders["expo-channel-name"]`,
    and every value the document holds off that path is the same as before.
  */
  lemma SetChannelNameKeepsOtherPaths(root: Json, channel: string, p: seq<string>)
    requires HasRequestHeaders(root)
    ensures GetPath(SetChannelName(root, channel).value, ChannelNamePath) == JString(channel)
    ensures Diverges(p, ChannelNamePath) ==> GetPath(SetChannelName(root, channel).value, p) == GetPath(root, p)
  {
    SetChannelNameIsPutPath(root, channel);
    PutPathReadsBack(root, ChannelNamePath, JString(channel));
    if Diverges(p, ChannelNamePath) {
      PutPathKeepsOtherPaths(root, ChannelNamePath, JString(channel), p);
    }
  }

  /**
    Member order is kept at every level: the three objects along the path keep
    their keys, and `requestHeaders` gains `expo-channel-name` at its end only
    when it did not have it.
  */
  lemma SetChannelNameKeepsKeyOrder(root: Json, channel: string)
    requires HasRequestHeaders(root)
    ensures var r := SetChannelName(root, channel).value;
      && RubyHash.Keys(r.members) == RubyHash.Keys(root.members)
      && RubyHash.Keys(Expo(r).members) == RubyHash.Keys(Expo(root).members)
      && RubyHash.Keys(Updates(r).members) == RubyHash.Keys(Updates(root).members)
      && var ks := RubyHash.Keys(RequestHeaders(root).members);
         RubyHash.Keys(RequestHeaders(r).members) == if ChannelNameMember in ks then ks else ks + [ChannelNameMember]
  {
    var r := SetChannelName(root, channel).value;
    assert RubyHash.Lookup(root.members, ExpoMember).Some?;
    assert RubyHash.Lookup(Expo(root).members, UpdatesMember).Some?;
    assert RubyHash.Lookup(Updates(root).members, RequestHeadersMember).Some?;
  }

  /** Updating twice with the same channel name gives the document updating once gives. */
  lemma SetChannelNameIdempotent(root: Json, channel: string)
    requires HasRequestHeaders(root)
    ensures SetChannelName(SetChannelName(root, channel).value, channel) == SetChannelName(root, channel)
  {
    var expo := Get(root, ExpoMember);
    var updates := Get(expo, UpdatesMember);
    var headers := Get(updates, RequestHeadersMember);
    var headers' := Put(headers, ChannelNameMember, JString(channel));
    var updates' := Put(updates, RequestHeadersMember, headers');
    var expo' := Put(expo, UpdatesMember, updates');
    var r := Put(root, ExpoMember, expo');
    assert SetChannelName(root, channel) == Some(r);
    RubyHash.StoreOverwrite(headers.members, ChannelNameMember, JString(channel), JString(channel));
    RubyHash.StoreOverwrite(updates.members, RequestHeadersMember, headers', headers');
    RubyHash.StoreOverwrite(expo.members, UpdatesMember, updates', updates');
    RubyHash.StoreOverwrite(root.members, ExpoMember, expo', expo');
  }
}
