/**
  The Expo.plist updater's in-memory edit: the value `Plist.parse_xml`
  returns, checked for truthiness, and its `expo-channel-name` entry
  overwritten when that entry is truthy.
*/
module ExpoPlist {
  import opened Common
  import RubyHash

  /** A parsed property-list value; dictionaries keep their entries in document order. */
  datatype Plist =
    | PString(s: string)
    | PInteger(i: int)
    | PReal(literal: string)
    | PBool(b: bool)
    | PDate(literal: string)
    | PData(bytes: seq<bv8>)
    | PArray(items: seq<Plist>)
    | PDict(entries: RubyHash.Hash<Plist>)

  const ChannelNameKey := "expo-channel-name"

  /** Ruby truthiness; a property list has no nil inside it, so only `<false/>` is falsy. */
  predicate Truthy(p: Plist) {
    p != PBool(false)
  }

  /** The two ways the updater gives up: nothing usable was parsed, or the key is not there. */
  datatype PlistError = NotParsed | ChannelNameNotFound

  /** `p[key]`: the entry of a dictionary, nil for a missing key and for anything that is not a dictionary. */
  function Get(p: Plist, key: string): Option<Plist> {
    if p.PDict? then RubyHash.Lookup(p.entries, key) else None
  }

  /** The parse gave a dictionary whose `expo-channel-name` entry holds something other than `false`. */
  predicate HasChannelName(parsed: Option<Plist>) {
    && parsed.Some?
    && parsed.value.PDict?
    && RubyHash.Lookup(parsed.value.entries, ChannelNameKey).Some?
    && RubyHash.Lookup(parsed.value.entries, ChannelNameKey).value != PBool(false)
  }

  /**
    The edit `update_expo_plist` makes. A parse result that is nil (or the
    single value `false`) is `NotParsed`; otherwise, unless `expo-channel-name`
    holds a truthy value, `ChannelNameNotFound`. On success the entry holds the
    channel name, every other entry is as it was and the key order is kept.
  */
  function SetChannelName(parsed: Option<Plist>, channel: string): (r: Result<Plist, PlistError>)
    ensures r == Err(NotParsed) <==> parsed == None || parsed == Some(PBool(false))
    ensures r.Ok? <==> HasChannelName(parsed)
    ensures r.Ok? ==>
      && r.value.PDict?
      && RubyHash.Lookup(r.value.entries, ChannelNameKey) == Some(PString(channel))
      && (forall k :: k != ChannelNameKey ==> RubyHash.Lookup(r.value.entries, k) == RubyHash.Lookup(parsed.value.entries, k))
      && RubyHash.Keys(r.value.entries) == RubyHash.Keys(parsed.value.entries)
  {
    if parsed.None? || !Truthy(parsed.value) then Err(NotParsed)
    else
      var content := parsed.value;
      var current := Get(content, ChannelNameKey);
      if current.Some? && Truthy(current.value) then
        Ok(PDict(RubyHash.Store(content.entries, ChannelNameKey, PString(channel))))
      else Err(ChannelNameNotFound)
  }

  /** Updating twice with the same channel name gives the dictionary updating once gives. */
  lemma SetChannelNameIdempotent(parsed: Option<Plist>, channel: string)
    requires HasChannelName(parsed)
    ensures SetChannelName(Some(SetChannelName(parsed, channel).value), channel) == SetChannelName(parsed, channel)
  {
    var entries := parsed.value.entries;
    var once := RubyHash.Store(entries, ChannelNameKey, PString(channel));
    assert SetChannelName(parsed, channel) == Ok(PDict(once));
    assert Get(PDict(once), ChannelNameKey) == Some(PString(channel));
    RubyHash.StoreOverwrite(entries, ChannelNameKey, PString(channel), PString(channel));
  }
}
