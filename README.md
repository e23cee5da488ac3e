# update_channel_metadata, modelled in Dafny

The fastlane action `update_channel_metadata` sets the Expo update channel
name in up to three files of a React Native / Expo project:

- in `AndroidManifest.xml`, the first `meta-data` element whose
  `android:name` is `expo.modules.updates.UPDATES_CONFIGURATION_REQUEST_HEADERS_KEY`
  gets the `android:value` `{"expo-channel-name":"<channel>"}`. The channel
  name is pasted in without escaping.
- in `Expo.plist`, the entry `expo-channel-name` is replaced, provided it is
  already there with a truthy value.
- in `app.json`, `expo.updates.requestHeaders["expo-channel-name"]` is set,
  provided `expo`, `expo.updates` and `expo.updates.requestHeaders` are all
  truthy.

`run` visits the files in this fixed order. A file whose path is not given,
or that does not exist, is skipped with a `UI.important` notice. An updater
that succeeds writes the whole document back and logs a `UI.message`. An
updater that fails raises `UI.user_error!` (or, for text that is not JSON,
lets the JSON parser's exception through). Either way it writes nothing,
and the run stops there. Files written by earlier updaters stay written.

The project has five modules:

- `Common` (`common.dfy`): `Option` and `Result`.
- `RubyHash` (`ruby_hash.dfy`): a Ruby `Hash` with string keys, modelled as an
  insertion-ordered association list. `Lookup` is `h[k]` and `Store` is
  `h[k] = v`, which overwrites in place or appends. JSON objects, plist
  dictionaries and XML attribute lists all use it.
- `AndroidManifest` (`android_manifest.dfy`): elements with attribute lists
  and children, and the edit the manifest updater makes. `SetFirstAnchor`
  walks the tree in pre-order. `DocumentOrder` flattens the tree into the
  order `at_xpath` searches, and the lemmas state the edit in those terms.
- `ExpoPlist` (`expo_plist.dfy`) and `AppJson` (`app_json.dfy`): property-list
  and JSON values, and the edit each updater makes to the parsed document,
  with Ruby truthiness modelled exactly (only `nil` and `false` are falsy).
- `UpdateChannelMetadata` (`update_channel_metadata.dfy`): the file system
  (a map from paths to parsed contents) and the UI log (a sequence of
  notices). The pure functions `Step`, `RunTargets` and `RunOutcome` say what
  one block of `run` and a whole run do. The class `Workspace` holds the same
  state in fields and changes it step by step: its methods
  `UpdateAndroidManifest`, `UpdateExpoPlist`, `UpdateAppJson` and `Run`
  follow the Ruby methods. Each is proved to produce the outcome the pure
  functions give.

Some consequences of the code that are easy to miss:

- The updates depend on each other's outcome. `run` takes them in the
  fixed order manifest, plist, app.json, and the first failure stops it
  (lines 59-85).
- A manifest may hold several anchor elements. `at_xpath` selects the
  first one in document order, and only that one is changed (line 93).
- An Expo.plist entry `expo-channel-name` that holds `false` counts as
  missing, because the guard tests truthiness (line 119).
- A parsed plist that is the single value `false` fails with "Could not
  parse", like `nil` (line 114).
- A path is looked up like any other string, the empty one included
  (line 64). No real file has the empty path, so in practice an empty path
  is skipped like a missing file.

## Model

| member | source | states |
|---|---|---|
| RubyHash.FirstIndex | lib/fastlane/plugin/update_channel_metadata/actions/update_channel_metadata_action.rb:119 | the position found holds an entry with key `k` and no entry before it does; it is the length of the hash when no entry has the key |
| RubyHash.Lookup | lib/fastlane/plugin/update_channel_metadata/actions/update_channel_metadata_action.rb:119 | `h[k]` finds a value exactly when `k` is one of the hash's keys |
| RubyHash.LookupReadsFirstEntry | lib/fastlane/plugin/update_channel_metadata/actions/update_channel_metadata_action.rb:119 | the value `h[k]` finds is the one stored in the first entry with key `k`, and nil when there is none |
| RubyHash.Store | lib/fastlane/plugin/update_channel_metadata/actions/update_channel_metadata_action.rb:120 | after `h[k] = v`, `h[k]` is `v` and every other key reads as before; an existing key keeps its place, a new key goes last |
| RubyHash.StoreOverwrite | lib/fastlane/plugin/update_channel_metadata/actions/update_channel_metadata_action.rb:120 | storing twice under the same key is storing the second value once |
| AppJson.Put | lib/fastlane/plugin/update_channel_metadata/actions/update_channel_metadata_action.rb:137 | `v[key] = x` on an object: `key` reads `x`, every other key reads as before |
| AppJson.SetChannelName | lib/fastlane/plugin/update_channel_metadata/actions/update_channel_metadata_action.rb:136-137 | the edit succeeds exactly when `expo`, `expo.updates` and `expo.updates.requestHeaders` are objects (so a missing, nil or false segment fails); afterwards `requestHeaders["expo-channel-name"]` is the channel name |
| AppJson.PutPathReadsBack | lib/fastlane/plugin/update_channel_metadata/actions/update_channel_metadata_action.rb:137 | a nested assignment along a path reads back along that path |
| AppJson.PutPathKeepsOtherPaths | lib/fastlane/plugin/update_channel_metadata/actions/update_channel_metadata_action.rb:137 | a nested assignment leaves every path that branches away from it unchanged |
| AppJson.SetChannelNameIsPutPath | lib/fastlane/plugin/update_channel_metadata/actions/update_channel_metadata_action.rb:137 | the app.json edit is the nested assignment along `expo.updates.requestHeaders.expo-channel-name` |
| AppJson.SetChannelNameKeepsOtherPaths | lib/fastlane/plugin/update_channel_metadata/actions/update_channel_metadata_action.rb:136-137 | after the edit the channel path holds the channel name and every other key at every level reads as before |
| AppJson.SetChannelNameKeepsKeyOrder | lib/fastlane/plugin/update_channel_metadata/actions/update_channel_metadata_action.rb:137 | the edit keeps the key order of the root, `expo` and `updates`; `requestHeaders` keeps its keys, with `expo-channel-name` appended if it was absent |
| AppJson.SetChannelNameIdempotent | lib/fastlane/plugin/update_channel_metadata/actions/update_channel_metadata_action.rb:137 | editing the edited document again gives the same document |
| ExpoPlist.SetChannelName | lib/fastlane/plugin/update_channel_metadata/actions/update_channel_metadata_action.rb:111-127 | nil or `false` parse results fail as not parsed; otherwise the edit succeeds exactly when `expo-channel-name` holds a truthy value, and then that entry holds the channel name while every other entry and the key order are unchanged |
| ExpoPlist.SetChannelNameIdempotent | lib/fastlane/plugin/update_channel_metadata/actions/update_channel_metadata_action.rb:120 | editing the edited dictionary again gives the same dictionary |
| AndroidManifest.RequestHeadersValue | lib/fastlane/plugin/update_channel_metadata/actions/update_channel_metadata_action.rb:98 | the value written can be read back: `ChannelOf` of it is the channel name, whatever characters the name holds |
| AndroidManifest.RequestHeadersValueRoundTrip | lib/fastlane/plugin/update_channel_metadata/actions/update_channel_metadata_action.rb:98 | only values of exactly the written shape read back as a channel name, so `ChannelOf` inverts the template exactly |
| AndroidManifest.IsAnchor | lib/fastlane/plugin/update_channel_metadata/actions/update_channel_metadata_action.rb:93 | an element the XPath selects is a `meta-data` element that carries an `android:name` attribute |
| AndroidManifest.FirstMatch | lib/fastlane/plugin/update_channel_metadata/actions/update_channel_metadata_action.rb:93 | the first match found is an index of the sequence |
| AndroidManifest.FirstMatchIsFirst | lib/fastlane/plugin/update_channel_metadata/actions/update_channel_metadata_action.rb:93 | the index found matches and nothing before it does; nothing found means nothing matches |
| AndroidManifest.FirstMatchRight | lib/fastlane/plugin/update_channel_metadata/actions/update_channel_metadata_action.rb:93 | with no match in the left part, the first match of a concatenation is the right part's, shifted |
| AndroidManifest.FirstMatchLeft | lib/fastlane/plugin/update_channel_metadata/actions/update_channel_metadata_action.rb:93 | a match in the left part is the first match of the concatenation |
| AndroidManifest.SetFirstAnchorFails | lib/fastlane/plugin/update_channel_metadata/actions/update_channel_metadata_action.rb:93-96 | the manifest edit fails exactly when no element in document order is an anchor |
| AndroidManifest.RelabelFront | lib/fastlane/plugin/update_channel_metadata/actions/update_channel_metadata_action.rb:93-98 | an anchor at the front is the element relabelled |
| AndroidManifest.RelabelMiddle | lib/fastlane/plugin/update_channel_metadata/actions/update_channel_metadata_action.rb:93-98 | relabelling the first anchor among an element's descendants relabels the first anchor of the whole document |
| AndroidManifest.RelabelLast | lib/fastlane/plugin/update_channel_metadata/actions/update_channel_metadata_action.rb:93-98 | with no anchor in an element or below it, relabelling the first anchor among its later siblings relabels the first anchor of the whole document |
| AndroidManifest.SetFirstAnchorRelabels | lib/fastlane/plugin/update_channel_metadata/actions/update_channel_metadata_action.rb:93-98 | the tree edit relabels exactly the first anchor in document order |
| AndroidManifest.SetFirstAnchorChangesOnlyFirst | lib/fastlane/plugin/update_channel_metadata/actions/update_channel_metadata_action.rb:93-98 | after a successful edit, the document order is the old one with only the first anchor's `android:value` set; every other element keeps its tag and attributes |
| AndroidManifest.SetFirstAnchor | lib/fastlane/plugin/update_channel_metadata/actions/update_channel_metadata_action.rb:93-98 | the edit keeps every element's tag and the shape of the tree |
| AndroidManifest.SetFirstAnchorIdempotent | lib/fastlane/plugin/update_channel_metadata/actions/update_channel_metadata_action.rb:98 | editing the edited document again gives the same document |
| UpdateChannelMetadata.EditManifest | lib/fastlane/plugin/update_channel_metadata/actions/update_channel_metadata_action.rb:87-107 | the manifest updater fails with the missing-tag error exactly when the parsed document has no anchor, and otherwise yields a manifest to write |
| UpdateChannelMetadata.EditPlist | lib/fastlane/plugin/update_channel_metadata/actions/update_channel_metadata_action.rb:109-129 | the plist updater succeeds exactly when `expo-channel-name` holds a truthy value; a nil or `false` parse fails with "Could not parse" and any other failure is "Could not find the key"; on success the entry holds the channel name |
| UpdateChannelMetadata.EditAppJson | lib/fastlane/plugin/update_channel_metadata/actions/update_channel_metadata_action.rb:131-146 | the updater succeeds exactly when the text is JSON holding the request headers object; text that is not JSON fails with the parser's exception, and a document without that object fails with the missing-`requestHeaders` error; on success `requestHeaders["expo-channel-name"]` is the channel name |
| UpdateChannelMetadata.EditManifestSetsFirstAnchor | lib/fastlane/plugin/update_channel_metadata/actions/update_channel_metadata_action.rb:93-101 | the written manifest differs from the parsed one only at the first anchor, whose `android:value` reads back as the channel name |
| UpdateChannelMetadata.EditKeepsFormat | lib/fastlane/plugin/update_channel_metadata/actions/update_channel_metadata_action.rb:87-146 | an updater succeeds only on a file in its own format and writes a file in that format |
| UpdateChannelMetadata.EditIdempotent | lib/fastlane/plugin/update_channel_metadata/actions/update_channel_metadata_action.rb:87-146 | each updater, applied to what it wrote with the same channel name, writes the same again |
| UpdateChannelMetadata.Update | lib/fastlane/plugin/update_channel_metadata/actions/update_channel_metadata_action.rb:87-146 | an updater completes exactly when its edit succeeds; a failure changes nothing and carries the edit's error; no file appears or disappears and no other file changes; a completed update writes the edited document to its path and logs one update report |
| UpdateChannelMetadata.Step | lib/fastlane/plugin/update_channel_metadata/actions/update_channel_metadata_action.rb:62-84 | a skipped target writes nothing and logs its skip notice; only a target whose path is given and exists can fail, and a failure changes nothing; no file other than the target's changes and none appears or disappears; when the path is given and the file exists, the block completes exactly when its updater's edit succeeds, then holds the edited document at that path, and otherwise fails with the edit's error; a completed block logs exactly one notice, the update report through `UI.message` or the skip notice through `UI.important` |
| UpdateChannelMetadata.RunTargets | lib/fastlane/plugin/update_channel_metadata/actions/update_channel_metadata_action.rb:59-85 | a run of any list of targets creates and deletes no file, only appends to the log, and logs one notice per target when it completes |
| UpdateChannelMetadata.RunOutcome | lib/fastlane/plugin/update_channel_metadata/actions/update_channel_metadata_action.rb:59-85 | `run` creates and deletes no file, only appends to the log, and logs three notices when it completes |
| UpdateChannelMetadata.RunTargetsAppend | lib/fastlane/plugin/update_channel_metadata/actions/update_channel_metadata_action.rb:59-85 | running two lists of targets back to back is running the first and, only if it completed, the second from where it left off |
| UpdateChannelMetadata.RunTargetsStopsAtFirstFailure | lib/fastlane/plugin/update_channel_metadata/actions/update_channel_metadata_action.rb:59-85 | a run that fails stops at some target: the targets before it all completed, the failing one changed nothing, and the files written before stay written |
| UpdateChannelMetadata.RunTargetsFrame | lib/fastlane/plugin/update_channel_metadata/actions/update_channel_metadata_action.rb:59-85 | a run leaves every file that none of its targets names unchanged |
| UpdateChannelMetadata.RunWithoutPaths | lib/fastlane/plugin/update_channel_metadata/actions/update_channel_metadata_action.rb:63-84 | with no path given, a run changes no file and logs the three skip notices in order |
| UpdateChannelMetadata.RunUnrolled | lib/fastlane/plugin/update_channel_metadata/actions/update_channel_metadata_action.rb:59-85 | a run is the manifest block, then the plist block, then the app.json block, each only if the one before completed |
| UpdateChannelMetadata.StepSettles | lib/fastlane/plugin/update_channel_metadata/actions/update_channel_metadata_action.rb:59-146 | after a completed block, its updater would leave its file as it is |
| UpdateChannelMetadata.StepKeepsSettled | lib/fastlane/plugin/update_channel_metadata/actions/update_channel_metadata_action.rb:59-146 | a completed block does not disturb a file another updater would leave as it is |
| UpdateChannelMetadata.RunTargetsKeepsSettled | lib/fastlane/plugin/update_channel_metadata/actions/update_channel_metadata_action.rb:59-146 | the same holds for a whole completed run |
| UpdateChannelMetadata.RunTargetsSettles | lib/fastlane/plugin/update_channel_metadata/actions/update_channel_metadata_action.rb:59-146 | after a completed run, every updater would leave its file as it is |
| UpdateChannelMetadata.RunTargetsOnSettled | lib/fastlane/plugin/update_channel_metadata/actions/update_channel_metadata_action.rb:59-146 | from such a state a run completes and leaves every file as it was |
| UpdateChannelMetadata.RunIdempotent | lib/fastlane/plugin/update_channel_metadata/actions/update_channel_metadata_action.rb:59-146 | running the action again with the same parameters after a completed run completes and leaves every file unchanged |
| UpdateChannelMetadata.NoticeText | lib/fastlane/plugin/update_channel_metadata/actions/update_channel_metadata_action.rb:103 | an update report starts with the fixed text, then names the channel, and ends with the path written |
| UpdateChannelMetadata.FailureText | lib/fastlane/plugin/update_channel_metadata/actions/update_channel_metadata_action.rb:105-144 | every `UI.user_error!` message ends with the path of the file at fault |
| UpdateChannelMetadata.Workspace.UpdateAndroidManifest | lib/fastlane/plugin/update_channel_metadata/actions/update_channel_metadata_action.rb:87-107 | the method changes the files and the log exactly as the manifest updater's outcome says and reports the same failure |
| UpdateChannelMetadata.Workspace.UpdateExpoPlist | lib/fastlane/plugin/update_channel_metadata/actions/update_channel_metadata_action.rb:109-129 | the method, with its explicit nil check, changes the files and the log exactly as the plist updater's outcome says |
| UpdateChannelMetadata.Workspace.UpdateAppJson | lib/fastlane/plugin/update_channel_metadata/actions/update_channel_metadata_action.rb:131-146 | the method changes the files and the log exactly as the app.json updater's outcome says |
| UpdateChannelMetadata.Workspace.RunBlock | lib/fastlane/plugin/update_channel_metadata/actions/update_channel_metadata_action.rb:62-84 | one block of `run` changes the state exactly as `Step` says |
| UpdateChannelMetadata.Workspace.Run | lib/fastlane/plugin/update_channel_metadata/actions/update_channel_metadata_action.rb:59-85 | `run` changes the files and the log exactly as `RunOutcome` says, returning the first failure |

## Left out

- File reads, writes and existence checks. A file exists when its path is a
  key of the file map. Writing replaces that entry with the edited document.
- Parsing and serialisation (Nokogiri, `Plist.parse_xml` and `to_plist`,
  `JSON.parse` and `JSON.pretty_generate`). Files hold parsed documents, so
  formatting, whitespace, comments and byte-level output are not modelled.
- How each parser treats a file in the wrong format is reduced to one rule
  each. Nokogiri finds no anchor, `Plist.parse_xml` gives nil, and
  `JSON.parse` raises.
- XML namespaces: `android:name` and `android:value` are attribute names
  taken literally, with no namespace resolution. XPath itself is not
  modelled; only the one query the updater runs is.
- `UI.important`, `UI.message` and `UI.user_error!` as output. Notices are
  values appended to the log, failures are returned values, and
  `NoticeText` and `FailureText` give their exact texts.
- The in-place mutation of each parsed document is modelled as a value update. Each
  document is freshly parsed and shared with nothing, so there is no aliasing to lose.
- AppJson.SetChannelName: a truthy value along `expo.updates.requestHeaders`
  that is not a Hash counts as missing. Ruby would raise `TypeError` or
  `NoMethodError` for most such values. For a String `requestHeaders`
  containing `expo-channel-name`, `String#[]=` would replace that substring.
  A top-level JSON value that is not an object is treated the same way.
- ExpoPlist.SetChannelName: a parsed plist that is truthy but not a
  dictionary counts as missing the key. Ruby would raise, or for a String
  read a substring.
- `description` and `available_options`: static metadata, which includes
  that only `channel_name` is mandatory. The model's `Params` mirrors it.
- The commented-out template at the top of the action file, and the
  plugin's RSpec test `spec/update_channel_metadata_action_spec.rb`, which
  asserts a message `run` never logs.
- AndroidManifest.IsAnchor: its contract states only that a selected element
  is a `meta-data` element carrying `android:name`; that the attribute's value
  is the request-headers key is its definition.
- UpdateChannelMetadata.NoticeText: the three skip notices have no contract of
  their own; `RunWithoutPaths` states which notices a run logs, and their exact
  texts are the function's definition.
- Key order in the written plist: `to_plist` may write dictionary keys in an
  order of its own, such as sorted. The key order the model keeps is that of
  the in-memory Hash after the assignment at line 120, not that of the written
  file.
- UpdateChannelMetadata.IsSupported: line 174 is a single comparison of the
  platform with `:android` and `:ios`; the function is that comparison and
  carries no contract, since there is nothing beyond it to prove.
- Duplicate keys: a `RubyHash.Hash` may list a key twice, which a Ruby Hash
  cannot. No parser result in the model is required to have distinct keys.
  `Lookup` reads the first entry with the key and `Store` overwrites that
  entry, so a duplicate-key hash behaves like the Hash made of first entries.
- Concurrency: the action runs its three updates one after another, and so
  does the model.
