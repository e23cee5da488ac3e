/**
  The `update_channel_metadata` fastlane action: for each of AndroidManifest.xml,
  Expo.plist and app.json, in that order, either skip it with a notice (no
  path given, or no such file) or parse it, set the Expo update channel name
  in it, write it back and report it. The first updater that raises ends the
  run; what was written before stays written.

  The file system is a map from paths to parsed contents, and the UI log is a
  sequence of notices. The pure functions below say what one step and a whole
  run do to that state; the class `Workspace` performs the same steps by
  updating its fields, and its methods are proved to agree with them.
*/
module UpdateChannelMetadata {
  import opened Common
  import RubyHash
  import AndroidManifest
  import ExpoPlist
  import AppJson

  type Path = string

  /**
    A file as the three parsers see it. A file of another format has no
    anchor element for Nokogiri, parses to nil for `Plist.parse_xml`, and
    makes `JSON.parse` raise.
  */
  datatype FileContent =
    | ManifestXml(nodes: seq<AndroidManifest.Element>)
    | PlistXml(top: Option<ExpoPlist.Plist>)
    | JsonText(root: AppJson.Json)
    | OtherText

  /** The action's parameters: the three optional paths and the channel name. */
  datatype Params = Params(manifestPath: Option<Path>, plistPath: Option<Path>, appJsonPath: Option<Path>, channelName: string)

  datatype Target = AndroidManifestTarget | ExpoPlistTarget | AppJsonTarget

  /** A line the action logs: a skip notice through `UI.important`, an update report through `UI.message`. */
  datatype Notice = Skipped(target: Target) | Updated(channel: string, path: Path)

  /**
    What ends a run early: one of the four `UI.user_error!` calls, or the
    exception `JSON.parse` raises on text that is not JSON.
  */
  datatype Failure =
    | AnchorMissing(path: Path)
    | PlistNotParsed(path: Path)
    | ChannelNameKeyMissing(path: Path)
    | RequestHeadersMissing(path: Path)
    | JsonParserError(path: Path)

  /** The file system and the log. */
  datatype State = State(files: map<Path, FileContent>, notices: seq<Notice>)

  /** A step or a run either completes, or stops with a failure in the state reached so far. */
  datatype Outcome = Done(state: State) | Aborted(state: State, failure: Failure)

  /** The order in which `run` visits the three files. */
  const TargetOrder: seq<Target> := [AndroidManifestTarget, ExpoPlistTarget, AppJsonTarget]

  /** Whether a notice goes through `UI.important` (else `UI.message`). */
  predicate IsImportant(n: Notice) {
    n.Skipped?
  }

  /** The three skip notices. */
  const AndroidSkipped := "AndroidManifest.xml path not provided or file does not exist, skipping Android update."
  const PlistSkipped := "Expo.plist path not provided or file does not exist, skipping iOS update."
  const AppJsonSkipped := "app.json path not provided or file does not exist, skipping app.json update."

  /** The text around the channel name in an update report. */
  const UpdatedPrefix := "Updated expo-channel-name to '"
  const UpdatedInfix := "' in "

  /** The text of a notice; an update report names the channel and ends with the path written. */
  function NoticeText(n: Notice): (r: string)
    ensures n.Updated? ==>
      && |UpdatedPrefix| + |n.channel| + |n.path| <= |r|
      && r[..|UpdatedPrefix|] == UpdatedPrefix
      && r[|UpdatedPrefix|..|UpdatedPrefix| + |n.channel|] == n.channel
      && r[|r| - |n.path|..] == n.path
  {
    match n
    case Skipped(AndroidManifestTarget) => AndroidSkipped
    case Skipped(ExpoPlistTarget) => PlistSkipped
    case Skipped(AppJsonTarget) => AppJsonSkipped
    case Updated(channel, path) =>
      var r := UpdatedPrefix + channel + UpdatedInfix + path;
      assert r[..|UpdatedPrefix|] == UpdatedPrefix;
      assert r[|UpdatedPrefix|..|UpdatedPrefix| + |channel|] == channel;
      assert r[|r| - |path|..] == path;
      r
  }

  /** Whether a failure is raised with `UI.user_error!` (else it is the JSON parser's exception). */
  predicate IsUserError(f: Failure) {
    !f.JsonParserError?
  }

  /** The fixed text each `UI.user_error!` message starts with; the path of the file follows it. */
  const AnchorMissingLead := "Could not find the meta-data tag with android:name='expo.modules.updates.UPDATES_CONFIGURATION_REQUEST_HEADERS_KEY' in "
  const PlistNotParsedLead := "Could not parse the Expo.plist file at "
  const ChannelNameKeyMissingLead := "Could not find the key 'expo-channel-name' in the Expo.plist file at "
  const RequestHeadersMissingLead := "Could not find the 'requestHeaders' key in the app.json file at "

  function FailureLead(f: Failure): string
    requires IsUserError(f)
  {
    match f
    case AnchorMissing(_) => AnchorMissingLead
    case PlistNotParsed(_) => PlistNotParsedLead
    case ChannelNameKeyMissing(_) => ChannelNameKeyMissingLead
    case RequestHeadersMissing(_) => RequestHeadersMissingLead
  }

  /** The message a `UI.user_error!` failure carries: its fixed text, ending with the path of the file at fault. */
  function FailureText(f: Failure): (r: string)
    requires IsUserError(f)
    ensures |f.path| <= |r| && r[|r| - |f.path|..] == f.path
  {
    var r := FailureLead(f) + f.path;
    assert r[|r| - |f.path|..] == f.path;
    r
  }

  /** The element forest Nokogiri builds from a file. */
  function ManifestView(c: FileContent): seq<AndroidManifest.Element> {
    if c.ManifestXml? then c.nodes else []
  }

  /** What `Plist.parse_xml` returns for a file. */
  function PlistView(c: FileContent): Option<ExpoPlist.Plist> {
    if c.PlistXml? then c.top else None
  }

  /** What `JSON.parse` returns for a file, or the exception it raises. */
  function JsonView(path: Path, c: FileContent): Result<AppJson.Json, Failure> {
    if c.JsonText? then Ok(c.root) else Err(JsonParserError(path))
  }

  /**
    The edit `update_android_manifest` makes to the file's content: it fails
    with the updater's `user_error!` exactly when the document has no anchor
    element, and otherwise gives the document to write back.
  */
  function EditManifest(path: Path, c: FileContent, channel: string): (r: Result<FileContent, Failure>)
    ensures r.Err? <==> AndroidManifest.FirstAnchor(AndroidManifest.DocumentOrder(ManifestView(c))).None?
    ensures r.Err? ==> r.error == AnchorMissing(path)
    ensures r.Ok? ==> r.value.ManifestXml?
  {
    var nodes := ManifestView(c);
    var value := AndroidManifest.RequestHeadersValue(channel);
    AndroidManifest.SetFirstAnchorFails(nodes, value);
    match AndroidManifest.SetFirstAnchor(nodes, value)
    case Some(edited) => Ok(ManifestXml(edited))
    case None => Err(AnchorMissing(path))
  }

  /**
    The edit `update_expo_plist` makes: a nil (or `false`) parse result fails
    with "Could not parse", a dictionary without a truthy `expo-channel-name`
    with "Could not find the key"; otherwise the entry holds the channel name.
  */
  function EditPlist(path: Path, c: FileContent, channel: string): (r: Result<FileContent, Failure>)
    ensures r.Ok? <==> ExpoPlist.HasChannelName(PlistView(c))
    ensures r.Err? ==>
      var parsed := PlistView(c);
      r.error == if parsed == None || parsed == Some(ExpoPlist.PBool(false)) then PlistNotParsed(path) else ChannelNameKeyMissing(path)
    ensures r.Ok? ==>
      && r.value.PlistXml? && r.value.top.Some?
      && ExpoPlist.Get(r.value.top.value, ExpoPlist.ChannelNameKey) == Some(ExpoPlist.PString(channel))
  {
    match ExpoPlist.SetChannelName(PlistView(c), channel)
    case Ok(edited) => Ok(PlistXml(Some(edited)))
    case Err(e) => Err(if e.NotParsed? then PlistNotParsed(path) else ChannelNameKeyMissing(path))
  }

  /**
    The edit `update_app_json` makes: text that is not JSON fails with the
    parser's exception, a document without `expo.updates.requestHeaders` with
    "Could not find the 'requestHeaders' key"; otherwise the channel name is
    stored in `requestHeaders`.
  */
  function EditAppJson(path: Path, c: FileContent, channel: string): (r: Result<FileContent, Failure>)
    ensures r == Err(JsonParserError(path)) <==> !c.JsonText?
    ensures r == Err(RequestHeadersMissing(path)) <==> c.JsonText? && !AppJson.HasRequestHeaders(c.root)
    ensures r.Ok? <==> c.JsonText? && AppJson.HasRequestHeaders(c.root)
    ensures r.Ok? ==>
      && r.value.JsonText?
      && AppJson.HasRequestHeaders(r.value.root)
      && AppJson.Get(AppJson.RequestHeaders(r.value.root), AppJson.ChannelNameMember) == AppJson.JString(channel)
  {
    match JsonView(path, c)
    case Err(f) => Err(f)
    case Ok(root) =>
      match AppJson.SetChannelName(root, channel)
      case Some(edited) => Ok(JsonText(edited))
      case None => Err(RequestHeadersMissing(path))
  }

  function PathOf(t: Target, params: Params): Option<Path> {
    match t
    case AndroidManifestTarget => params.manifestPath
    case ExpoPlistTarget => params.plistPath
    case AppJsonTarget => params.appJsonPath
  }

  /** `path && File.exist?(path)`: the updater for `t` runs. */
  predicate Enabled(t: Target, params: Params, s: State) {
    PathOf(t, params).Some? && PathOf(t, params).value in s.files
  }

  /** The edit the updater for `t` makes. */
  function Edit(t: Target, path: Path, c: FileContent, channel: string): Result<FileContent, Failure> {
    match t
    case AndroidManifestTarget => EditManifest(path, c, channel)
    case ExpoPlistTarget => EditPlist(path, c, channel)
    case AppJsonTarget => EditAppJson(path, c, channel)
  }

  /**
    The updater for `t` on the file at `path`: a failed edit is raised with
    nothing written; a successful one is written back to `path` and reported
    with `UI.message`.
  */
  function Update(t: Target, path: Path, channel: string, s: State): (r: Outcome)
    requires path in s.files
    ensures r.Done? <==> Edit(t, path, s.files[path], channel).Ok?
    ensures r.Aborted? ==> r.state == s && r.failure == Edit(t, path, s.files[path], channel).error
    ensures r.state.files.Keys == s.files.Keys
    ensures forall p :: p in s.files && p != path ==> r.state.files[p] == s.files[p]
    ensures r.Done? ==> r.state.files[path] == Edit(t, path, s.files[path], channel).value
    ensures r.Done? ==> r.state.notices == s.notices + [Updated(channel, path)]
  {
    match Edit(t, path, s.files[path], channel)
    case Ok(c) => Done(State(s.files[path := c], s.notices + [Updated(channel, path)]))
    case Err(f) => Aborted(s, f)
  }

  /**
    One of the three blocks of `run`: the updater for `t` if its file is
    there, else the skip notice. A skipped target writes nothing; only a
    target that runs can fail, and a failure leaves the state as it was.
    Either way no file other than the target's changes and no file appears
    or disappears; a completed step appends exactly one notice to the log.
  */
  function Step(t: Target, params: Params, s: State): (r: Outcome)
    ensures !Enabled(t, params, s) ==> r == Done(State(s.files, s.notices + [Skipped(t)]))
    ensures r.Aborted? ==> Enabled(t, params, s) && r.state == s
    ensures r.state.files.Keys == s.files.Keys
    ensures forall p :: p in s.files && PathOf(t, params) != Some(p) ==> r.state.files[p] == s.files[p]
    ensures Enabled(t, params, s) ==>
      var path := PathOf(t, params).value;
      var e := Edit(t, path, s.files[path], params.channelName);
      && (r.Done? <==> e.Ok?)
      && (r.Done? ==> r.state.files[path] == e.value)
      && (r.Aborted? ==> r.failure == e.error)
    ensures r.Done? ==>
      r.state.notices == s.notices + [if Enabled(t, params, s) then Updated(params.channelName, PathOf(t, params).value) else Skipped(t)]
    ensures r.Done? ==> (IsImportant(r.state.notices[|s.notices|]) <==> !Enabled(t, params, s))
  {
    if Enabled(t, params, s) then Update(t, PathOf(t, params).value, params.channelName, s)
    else Done(State(s.files, s.notices + [Skipped(t)]))
  }

  /**
    The targets `ts` taken in order, stopping at the first failure. No file
    appears or disappears, and the log is only appended to: one notice per
    target when the run completes.
  */
  function RunTargets(ts: seq<Target>, params: Params, s: State): (r: Outcome)
    ensures r.state.files.Keys == s.files.Keys
    ensures s.notices <= r.state.notices
    ensures r.Done? ==> |r.state.notices| == |s.notices| + |ts|
    decreases |ts|
  {
    if ts == [] then Done(s)
    else match Step(ts[0], params, s)
      case Done(s') => RunTargets(ts[1..], params, s')
      case Aborted(s', f) => Aborted(s', f)
  }

  /**
    What `run` does to the file system and the log: no file appears or
    disappears, and a completed run appends three notices, one per file.
  */
  function RunOutcome(params: Params, s: State): (r: Outcome)
    ensures r.state.files.Keys == s.files.Keys
    ensures s.notices <= r.state.notices
    ensures r.Done? ==> |r.state.notices| == |s.notices| + 3
  {
    RunTargets(TargetOrder, params, s)
  }

  /** Running `a + b` is running `a`, then, if that completed, running `b` from where it left off. */
  lemma {:induction false} RunTargetsAppend(a: seq<Target>, b: seq<Target>, params: Params, s: State)
    ensures RunTargets(a + b, params, s) ==
      match RunTargets(a, params, s)
      case Done(s') => RunTargets(b, params, s')
      case Aborted(s', f) => Aborted(s', f)
    decreases |a|
  {
    if a == [] {
      assert a + b == b;
    } else {
      assert (a + b)[0] == a[0];
      assert (a + b)[1..] == a[1..] + b;
      if Step(a[0], params, s).Done? {
        RunTargetsAppend(a[1..], b, params, Step(a[0], params, s).state);
      }
    }
  }

  /** The first `k + 1` elements without the head are the first `k` of the tail. */
  lemma TakeThenDrop<T>(xs: seq<T>, k: nat)
    requires k < |xs|
    ensures xs[..k + 1][0] == xs[0] && xs[..k + 1][1..] == xs[1..][..k]
  {
  }

  /**
    Fail-fast: a run that stops, stops at some target `k`; the targets before
    it all completed, and the state it stops in, including every file they
    wrote, is the state they reached. The targets after `k` never ran.
  */
  lemma {:induction false} RunTargetsStopsAtFirstFailure(ts: seq<Target>, params: Params, s: State)
    requires RunTargets(ts, params, s).Aborted?
    ensures var r := RunTargets(ts, params, s);
      exists k :: 0 <= k < |ts| && RunTargets(ts[..k], params, s) == Done(r.state) && Step(ts[k], params, r.state) == r
    decreases |ts|
  {
    var r := RunTargets(ts, params, s);
    var step := Step(ts[0], params, s);
    if step.Aborted? {
      assert ts[..0] == [];
      assert RunTargets(ts[..0], params, s) == Done(r.state) && Step(ts[0], params, r.state) == r;
    } else {
      var s' := step.state;
      assert r == RunTargets(ts[1..], params, s');
      RunTargetsStopsAtFirstFailure(ts[1..], params, s');
      var k :| 0 <= k < |ts[1..]| && RunTargets(ts[1..][..k], params, s') == Done(r.state) && Step(ts[1..][k], params, r.state) == r;
      var prefix := ts[..k + 1];
      TakeThenDrop(ts, k);
      assert RunTargets(prefix, params, s) == RunTargets(ts[1..][..k], params, s');
      assert ts[k + 1] == ts[1..][k];
      assert RunTargets(ts[..k + 1], params, s) == Done(r.state) && Step(ts[k + 1], params, r.state) == r;
    }
  }

  /** A run never touches a file that is not one of its targets' paths. */
  lemma {:induction false} RunTargetsFrame(ts: seq<Target>, params: Params, s: State)
    ensures forall p :: p in s.files && (forall t :: t in ts ==> PathOf(t, params) != Some(p)) ==>
      RunTargets(ts, params, s).state.files[p] == s.files[p]
    decreases |ts|
  {
    if ts != [] {
      var step := Step(ts[0], params, s);
      if step.Done? {
        RunTargetsFrame(ts[1..], params, step.state);
        forall p | p in s.files && (forall t :: t in ts ==> PathOf(t, params) != Some(p))
          ensures RunTargets(ts, params, s).state.files[p] == s.files[p]
        {
          assert forall t :: t in ts[1..] ==> t in ts;
        }
      }
    }
  }

  /** With no path given, `run` logs the three skip notices in order and changes no file. */
  lemma RunWithoutPaths(channel: string, s: State)
    ensures RunOutcome(Params(None, None, None, channel), s) ==
      Done(State(s.files, s.notices + [Skipped(AndroidManifestTarget), Skipped(ExpoPlistTarget), Skipped(AppJsonTarget)]))
  {
    var params := Params(None, None, None, channel);
    var s1 := Step(AndroidManifestTarget, params, s).state;
    var s2 := Step(ExpoPlistTarget, params, s1).state;
    assert TargetOrder[1..][1..] == [AppJsonTarget];
    assert RunTargets(TargetOrder, params, s) == RunTargets([AppJsonTarget], params, s2);
  }

  /**
    `run` unrolled: the manifest, then the plist, then app.json, each running
    only if the one before it completed.
  */
  lemma RunUnrolled(params: Params, s: State)
    ensures RunOutcome(params, s) ==
      match Step(AndroidManifestTarget, params, s)
      case Aborted(s1, f) => Aborted(s1, f)
      case Done(s1) =>
        match Step(ExpoPlistTarget, params, s1)
        case Aborted(s2, f) => Aborted(s2, f)
        case Done(s2) => Step(AppJsonTarget, params, s2)
  {
    assert TargetOrder[1..] == [ExpoPlistTarget, AppJsonTarget];
    assert TargetOrder[1..][1..] == [AppJsonTarget];
    assert TargetOrder[1..][1..][1..] == [];
  }

  /** Whether `c` is a file in the format the updater for `t` reads. */
  predicate OfFormat(t: Target, c: FileContent) {
    match t
    case AndroidManifestTarget => c.ManifestXml?
    case ExpoPlistTarget => c.PlistXml?
    case AppJsonTarget => c.JsonText?
  }

  /** An updater succeeds only on a file in its own format, and writes a file in that format. */
  lemma EditKeepsFormat(t: Target, path: Path, c: FileContent, channel: string)
    requires Edit(t, path, c, channel).Ok?
    ensures OfFormat(t, c) && OfFormat(t, Edit(t, path, c, channel).value)
  {
  }

  /** Each updater is idempotent: editing what it wrote, with the same channel name, writes the same again. */
  lemma EditIdempotent(t: Target, path: Path, c: FileContent, channel: string)
    requires Edit(t, path, c, channel).Ok?
    ensures Edit(t, path, Edit(t, path, c, channel).value, channel) == Edit(t, path, c, channel)
  {
    match t
    case AndroidManifestTarget =>
      AndroidManifest.SetFirstAnchorIdempotent(ManifestView(c), AndroidManifest.RequestHeadersValue(channel));
    case ExpoPlistTarget =>
      ExpoPlist.SetChannelNameIdempotent(PlistView(c), channel);
    case AppJsonTarget =>
      AppJson.SetChannelNameIdempotent(c.root, channel);
  }

  /**
    The manifest edit relabels exactly the first anchor element in document
    order, and the channel name can be read back from its new `android:value`.
  */
  lemma EditManifestSetsFirstAnchor(path: Path, c: FileContent, channel: string)
    requires EditManifest(path, c, channel).Ok?
    ensures var before := AndroidManifest.DocumentOrder(ManifestView(c));
      var after := AndroidManifest.DocumentOrder(EditManifest(path, c, channel).value.nodes);
      var i := AndroidManifest.FirstAnchor(before).value;
      && after == before[i := AndroidManifest.SetValue(before[i], AndroidManifest.RequestHeadersValue(channel))]
      && RubyHash.Lookup(after[i].attributes, AndroidManifest.ValueAttribute).Some?
      && AndroidManifest.ChannelOf(RubyHash.Lookup(after[i].attributes, AndroidManifest.ValueAttribute).value) == Some(channel)
  {
    var value := AndroidManifest.RequestHeadersValue(channel);
    AndroidManifest.SetFirstAnchorChangesOnlyFirst(ManifestView(c), value);
  }

  /** The file of target `t`, if the updater for it runs, is one the updater leaves as it is. */
  predicate Settled(t: Target, params: Params, s: State) {
    Enabled(t, params, s) ==>
      var path := PathOf(t, params).value;
      Edit(t, path, s.files[path], params.channelName) == Ok(s.files[path])
  }

  /** A completed step leaves its own target settled. */
  lemma StepSettles(t: Target, params: Params, s: State)
    requires Step(t, params, s).Done?
    ensures Settled(t, params, Step(t, params, s).state)
  {
    if Enabled(t, params, s) {
      EditIdempotent(t, PathOf(t, params).value, s.files[PathOf(t, params).value], params.channelName);
    }
  }

  /**
    A completed step keeps any other target settled: it writes another path,
    or the same path, where an updater for a different format would have
    failed.
  */
  lemma StepKeepsSettled(t: Target, u: Target, params: Params, s: State)
    requires Settled(t, params, s) && Step(u, params, s).Done?
    ensures Settled(t, params, Step(u, params, s).state)
  {
    var s' := Step(u, params, s).state;
    if Enabled(t, params, s) && Enabled(u, params, s) && PathOf(u, params) == PathOf(t, params) {
      var path := PathOf(t, params).value;
      EditKeepsFormat(t, path, s.files[path], params.channelName);
      EditKeepsFormat(u, path, s.files[path], params.channelName);
      assert u == t;
    }
  }

  lemma {:induction false} RunTargetsKeepsSettled(t: Target, ts: seq<Target>, params: Params, s: State)
    requires Settled(t, params, s) && RunTargets(ts, params, s).Done?
    ensures Settled(t, params, RunTargets(ts, params, s).state)
    decreases |ts|
  {
    if ts != [] {
      StepKeepsSettled(t, ts[0], params, s);
      RunTargetsKeepsSettled(t, ts[1..], params, Step(ts[0], params, s).state);
    }
  }

  /** A completed run leaves every one of its targets settled. */
  lemma {:induction false} RunTargetsSettles(ts: seq<Target>, params: Params, s: State)
    requires RunTargets(ts, params, s).Done?
    ensures forall t :: t in ts ==> Settled(t, params, RunTargets(ts, params, s).state)
    decreases |ts|
  {
    if ts != [] {
      var s1 := Step(ts[0], params, s).state;
      StepSettles(ts[0], params, s);
      RunTargetsKeepsSettled(ts[0], ts[1..], params, s1);
      RunTargetsSettles(ts[1..], params, s1);
    }
  }

  /** From a state where every target is settled, a run completes and rewrites every file as it was. */
  lemma {:induction false} RunTargetsOnSettled(ts: seq<Target>, params: Params, s: State)
    requires forall t :: t in ts ==> Settled(t, params, s)
    ensures RunTargets(ts, params, s).Done?
    ensures RunTargets(ts, params, s).state.files == s.files
    decreases |ts|
  {
    if ts != [] {
      var s1 := Step(ts[0], params, s).state;
      assert Settled(ts[0], params, s);
      assert s1.files == s.files;
      forall t | t in ts[1..] ensures Settled(t, params, s1) {
        assert t in ts;
      }
      RunTargetsOnSettled(ts[1..], params, s1);
    }
  }

  /**
    The action is idempotent: running it again with the same parameters on
    the files a completed run left behind completes too, and leaves every
    file as it found it.
  */
  lemma RunIdempotent(params: Params, s: State)
    requires RunOutcome(params, s).Done?
    ensures RunOutcome(params, RunOutcome(params, s).state).Done?
    ensures RunOutcome(params, RunOutcome(params, s).state).state.files == RunOutcome(params, s).state.files
  {
    RunTargetsSettles(TargetOrder, params, s);
    RunTargetsOnSettled(TargetOrder, params, RunOutcome(params, s).state);
  }

  /** `is_supported?`: the action supports the `:android` and `:ios` platforms only. */
  function IsSupported(platform: string): bool {
    platform == "android" || platform == "ios"
  }

  /**
    The file system and the UI log, changed step by step as `run` changes
    them. Each updater parses its file, edits the freshly parsed document,
    writes it back and logs; a failure is returned instead of raised.
  */
  class Workspace {
    var files: map<Path, FileContent>
    var notices: seq<Notice>

    constructor (files: map<Path, FileContent>)
      ensures this.files == files && notices == []
    {
      this.files := files;
      notices := [];
    }

    function Snapshot(): State
      reads this
    {
      State(files, notices)
    }

    /** The outcome a method reports: its failure if any, with the state now held. */
    function Finished(failure: Option<Failure>): Outcome
      reads this
    {
      if failure.None? then Done(Snapshot()) else Aborted(Snapshot(), failure.value)
    }

    /** `update_android_manifest`: edit the parsed document, write it back and report, or fail. */
    method UpdateAndroidManifest(manifestPath: Path, newChannel: string) returns (failure: Option<Failure>)
      requires manifestPath in files
      modifies this
      ensures Finished(failure) == Update(AndroidManifestTarget, manifestPath, newChannel, old(Snapshot()))
    {
      var xmlDoc := ManifestView(files[manifestPath]);
      var edited := AndroidManifest.SetFirstAnchor(xmlDoc, AndroidManifest.RequestHeadersValue(newChannel));
      if edited.Some? {
        files := files[manifestPath := ManifestXml(edited.value)];
        notices := notices + [Updated(newChannel, manifestPath)];
        failure := None;
      } else {
        failure := Some(AnchorMissing(manifestPath));
      }
    }

    /** `update_expo_plist`: give up on a nil parse, then edit, write back and report, or fail. */
    method UpdateExpoPlist(plistPath: Path, newChannel: string) returns (failure: Option<Failure>)
      requires plistPath in files
      modifies this
      ensures Finished(failure) == Update(ExpoPlistTarget, plistPath, newChannel, old(Snapshot()))
    {
      var plistContent := PlistView(files[plistPath]);
      if plistContent.None? || plistContent.value == ExpoPlist.PBool(false) {
        return Some(PlistNotParsed(plistPath));
      }
      var edited := ExpoPlist.SetChannelName(plistContent, newChannel);
      if edited.Ok? {
        files := files[plistPath := PlistXml(Some(edited.value))];
        notices := notices + [Updated(newChannel, plistPath)];
        failure := None;
      } else {
        failure := Some(ChannelNameKeyMissing(plistPath));
      }
    }

    /** `update_app_json`: parse (which may raise), edit, write back and report, or fail. */
    method UpdateAppJson(appJsonPath: Path, newChannel: string) returns (failure: Option<Failure>)
      requires appJsonPath in files
      modifies this
      ensures Finished(failure) == Update(AppJsonTarget, appJsonPath, newChannel, old(Snapshot()))
    {
      var parsed := JsonView(appJsonPath, files[appJsonPath]);
      if parsed.Err? {
        return Some(parsed.error);
      }
      var edited := AppJson.SetChannelName(parsed.value, newChannel);
      if edited.Some? {
        files := files[appJsonPath := JsonText(edited.value)];
        notices := notices + [Updated(newChannel, appJsonPath)];
        failure := None;
      } else {
        failure := Some(RequestHeadersMissing(appJsonPath));
      }
    }

    /**
      One block of `run`: call the updater for `t` when its path is given
      and the file exists, and otherwise log the skip notice.
    */
    method RunBlock(t: Target, params: Params) returns (failure: Option<Failure>)
      modifies this
      ensures Finished(failure) == Step(t, params, old(Snapshot()))
    {
      var path := PathOf(t, params);
      if path.Some? && path.value in files {
        match t
        case AndroidManifestTarget =>
          failure := UpdateAndroidManifest(path.value, params.channelName);
        case ExpoPlistTarget =>
          failure := UpdateExpoPlist(path.value, params.channelName);
        case AppJsonTarget =>
          failure := UpdateAppJson(path.value, params.channelName);
      } else {
        notices := notices + [Skipped(t)];
        failure := None;
      }
    }

    /** `run`: the manifest, the plist and app.json blocks in order, returning at the first failure. */
    method Run(params: Params) returns (failure: Option<Failure>)
      modifies this
      ensures Finished(failure) == RunOutcome(params, old(Snapshot()))
    {
      ghost var s0 := Snapshot();
      RunUnrolled(params, s0);
      failure := RunBlock(AndroidManifestTarget, params);
      if failure.Some? {
        return;
      }
      failure := RunBlock(ExpoPlistTarget, params);
      if failure.Some? {
        return;
      }
      failure := RunBlock(AppJsonTarget, params);
    }
  }
}
