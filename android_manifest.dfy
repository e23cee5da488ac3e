/**
  The AndroidManifest.xml updater's in-memory edit: find the first
  `meta-data` element, in document order, whose `android:name` is the
  request-headers key, and set its `android:value` to a one-entry JSON object
  naming the channel.
*/
module AndroidManifest {
  import opened Common
  import RubyHash

  /** An XML element: its tag, its attributes in document order, and its child elements. */
  datatype Element = Element(name: string, attributes: RubyHash.Hash<string>, children: seq<Element>)

  /** What an element says about itself, without its children. */
  datatype Label = Label(name: string, attributes: RubyHash.Hash<string>)

  const MetaDataTag := "meta-data"
  const NameAttribute := "android:name"
  const ValueAttribute := "android:value"
  /** The `android:name` of the meta-data element that holds the request headers. */
  const RequestHeadersMetaName := "expo.modules.updates.UPDATES_CONFIGURATION_REQUEST_HEADERS_KEY"

  /** The text around the channel name in the value written: `{"expo-channel-name":"` and `"}`. */
  const ValuePrefix := "{\"expo-channel-name\":\""
  const ValueSuffix := "\"}"

  /**
    The attribute value written; the channel name is pasted in as it is,
    without escaping, and can be read back out of it.
  */
  function RequestHeadersValue(channel: string): (r: string)
    ensures ChannelOf(r) == Some(channel)
  {
    var v := ValuePrefix + channel + ValueSuffix;
    assert v[..|ValuePrefix|] == ValuePrefix;
    assert v[|v| - |ValueSuffix|..] == ValueSuffix;
    assert v[|ValuePrefix|..|v| - |ValueSuffix|] == channel;
    v
  }

  /** Reads the channel name back out of a value of that shape. */
  function ChannelOf(value: string): Option<string> {
    if |ValuePrefix| + |ValueSuffix| <= |value|
       && value[..|ValuePrefix|] == ValuePrefix
       && value[|value| - |ValueSuffix|..] == ValueSuffix
    then Some(value[|ValuePrefix|..|value| - |ValueSuffix|])
    else None
  }

  /** Only values written by the template read back as a channel name: `ChannelOf` inverts it exactly. */
  lemma RequestHeadersValueRoundTrip(channel: string, value: string)
    ensures ChannelOf(value) == Some(channel) ==> value == RequestHeadersValue(channel)
  {
    if ChannelOf(value) == Some(channel) {
      assert value == value[..|ValuePrefix|] + value[|ValuePrefix|..|value| - |ValueSuffix|] + value[|value| - |ValueSuffix|..];
    }
  }

  function LabelOf(e: Element): Label {
    Label(e.name, e.attributes)
  }

  /** The element the XPath `//meta-data[@android:name='...REQUEST_HEADERS_KEY']` selects. */
  predicate IsAnchor(l: Label)
    ensures IsAnchor(l) ==> l.name == MetaDataTag && NameAttribute in RubyHash.Keys(l.attributes)
  {
    l.name == MetaDataTag && RubyHash.Lookup(l.attributes, NameAttribute) == Some(RequestHeadersMetaName)
  }

  /** The labels of all elements of a forest, in document order (pre-order). */
  function DocumentOrder(f: seq<Element>): seq<Label>
    decreases f
  {
    if f == [] then [] else [LabelOf(f[0])] + DocumentOrder(f[0].children) + DocumentOrder(f[1..])
  }

  /** The forest with every attribute list emptied: its tags and its shape. */
  function Skeleton(f: seq<Element>): seq<Element>
    decreases f
  {
    if f == [] then [] else [Element(f[0].name, [], Skeleton(f[0].children))] + Skeleton(f[1..])
  }

  /** The index of the first element of `xs` that satisfies `p`, if any. */
  function FirstMatch<T>(xs: seq<T>, p: T -> bool): (r: Option<nat>)
    ensures r.Some? ==> r.value < |xs|
  {
    if xs == [] then None
    else if p(xs[0]) then Some(0)
    else match FirstMatch(xs[1..], p)
      case Some(i) => Some(i + 1)
      case None => None
  }

  /** `FirstMatch` finds a match with none before it, and finds nothing only when nothing matches. */
  lemma {:induction false} FirstMatchIsFirst<T>(xs: seq<T>, p: T -> bool)
    ensures FirstMatch(xs, p).Some? ==>
      var i := FirstMatch(xs, p).value;
      p(xs[i]) && forall j :: 0 <= j < i ==> !p(xs[j])
    ensures FirstMatch(xs, p).None? ==> forall j :: 0 <= j < |xs| ==> !p(xs[j])
  {
    if xs != [] {
      FirstMatchIsFirst(xs[1..], p);
      assert forall j :: 1 <= j < |xs| ==> xs[j] == xs[1..][j - 1];
    }
  }

  /** The index of the label `at_xpath` selects: the first anchor in document order, if any. */
  function FirstAnchor(ls: seq<Label>): Option<nat> {
    FirstMatch(ls, IsAnchor)
  }

  /** `element['android:value'] = value` on a label. */
  function SetValue(l: Label, value: string): Label {
    l.(attributes := RubyHash.Store(l.attributes, ValueAttribute, value))
  }

  /**
    The edit `update_android_manifest` makes: the first anchor element met in
    a pre-order walk gets `android:value` set to `value`; `None` when there is
    no anchor (the updater raises and writes nothing). The edit keeps every
    element's tag and the shape of the tree.
  */
  function SetFirstAnchor(f: seq<Element>, value: string): (r: Option<seq<Element>>)
    ensures r.Some? ==> Skeleton(r.value) == Skeleton(f)
    decreases f
  {
    if f == [] then None
    else
      var e := f[0];
      if IsAnchor(LabelOf(e)) then
        var e' := e.(attributes := RubyHash.Store(e.attributes, ValueAttribute, value));
        assert ([e'] + f[1..])[1..] == f[1..];
        Some([e'] + f[1..])
      else match SetFirstAnchor(e.children, value)
        case Some(cs) =>
          assert ([e.(children := cs)] + f[1..])[1..] == f[1..];
          Some([e.(children := cs)] + f[1..])
        case None =>
          match SetFirstAnchor(f[1..], value)
          case Some(rest) =>
            assert ([e] + rest)[1..] == rest;
            Some([e] + rest)
          case None => None
  }

  /** Without a match on the left, the first match of a concatenation is the right part's, shifted. */
  lemma {:induction false} FirstMatchRight<T>(a: seq<T>, b: seq<T>, p: T -> bool)
    requires FirstMatch(a, p).None?
    ensures FirstMatch(b, p).None? ==> FirstMatch(a + b, p).None?
    ensures FirstMatch(b, p).Some? ==> FirstMatch(a + b, p) == Some(|a| + FirstMatch(b, p).value)
  {
    if a != [] {
      assert (a + b)[1..] == a[1..] + b;
      FirstMatchRight(a[1..], b, p);
    } else {
      assert a + b == b;
    }
  }

  /** A match on the left is the first match of the concatenation. */
  lemma {:induction false} FirstMatchLeft<T>(a: seq<T>, b: seq<T>, p: T -> bool)
    requires FirstMatch(a, p).Some?
    ensures FirstMatch(a + b, p) == FirstMatch(a, p)
  {
    if !p(a[0]) {
      assert (a + b)[1..] == a[1..] + b;
      FirstMatchLeft(a[1..], b, p);
    }
  }

  /** The edit fails exactly when no element of the document is an anchor. */
  lemma {:induction false} SetFirstAnchorFails(f: seq<Element>, value: string)
    ensures SetFirstAnchor(f, value).None? <==> FirstAnchor(DocumentOrder(f)).None?
    decreases f
  {
    if f != [] {
      var e, rest := f[0], f[1..];
      var kids, tail := DocumentOrder(e.children), DocumentOrder(rest);
      assert DocumentOrder(f) == [LabelOf(e)] + (kids + tail);
      SetFirstAnchorFails(e.children, value);
      SetFirstAnchorFails(rest, value);
      if !IsAnchor(LabelOf(e)) {
        FirstMatchRight([LabelOf(e)], kids + tail, IsAnchor);
        if FirstAnchor(kids).Some? {
          FirstMatchLeft(kids, tail, IsAnchor);
        } else {
          FirstMatchRight(kids, tail, IsAnchor);
        }
      }
    }
  }

  /** `after` is `before` with its first match under `p` replaced by its image under `g`, and nothing else changed. */
  ghost predicate RelabelsFirst<T>(before: seq<T>, after: seq<T>, p: T -> bool, g: T -> T) {
    && FirstMatch(before, p).Some?
    && var i := FirstMatch(before, p).value;
       after == before[i := g(before[i])]
  }

  /** A match at the front is the one relabelled. */
  lemma {:induction false} RelabelFront<T>(x: T, xs: seq<T>, p: T -> bool, g: T -> T)
    requires p(x)
    ensures RelabelsFirst([x] + xs, [g(x)] + xs, p, g)
  {
    assert FirstMatch([x] + xs, p) == Some(0);
    assert [g(x)] + xs == ([x] + xs)[0 := g(x)];
  }

  /** Relabelling inside the middle part of `[x] + (xs + ys)` relabels the whole. */
  lemma {:induction false} RelabelMiddle<T>(x: T, xs: seq<T>, xs': seq<T>, ys: seq<T>, p: T -> bool, g: T -> T)
    requires !p(x) && RelabelsFirst(xs, xs', p, g)
    ensures RelabelsFirst([x] + (xs + ys), [x] + (xs' + ys), p, g)
  {
    var i := FirstMatch(xs, p).value;
    FirstMatchLeft(xs, ys, p);
    FirstMatchRight([x], xs + ys, p);
    assert ([x] + (xs + ys))[1 + i] == xs[i];
    assert [x] + (xs' + ys) == ([x] + (xs + ys))[1 + i := g(xs[i])];
  }

  /** With no match before it, relabelling inside the last part of `[x] + (xs + ys)` relabels the whole. */
  lemma {:induction false} RelabelLast<T>(x: T, xs: seq<T>, ys: seq<T>, ys': seq<T>, p: T -> bool, g: T -> T)
    requires !p(x) && FirstMatch(xs, p).None? && RelabelsFirst(ys, ys', p, g)
    ensures RelabelsFirst([x] + (xs + ys), [x] + (xs + ys'), p, g)
  {
    var j := FirstMatch(ys, p).value;
    FirstMatchRight(xs, ys, p);
    FirstMatchRight([x], xs + ys, p);
    assert ([x] + (xs + ys))[1 + |xs| + j] == ys[j];
    assert [x] + (xs + ys') == ([x] + (xs + ys))[1 + |xs| + j := g(ys[j])];
  }

  /** Document order of a forest whose first element is `e`. */
  lemma DocumentOrderCons(e: Element, rest: seq<Element>)
    ensures DocumentOrder([e] + rest) == [LabelOf(e)] + (DocumentOrder(e.children) + DocumentOrder(rest))
  {
    assert ([e] + rest)[1..] == rest;
  }

  /** `SetValue` with the value fixed, as a function on labels. */
  function SetValueTo(value: string): Label -> Label {
    l => SetValue(l, value)
  }

  /** The relabelling `SetFirstAnchor` performs, stated on document order. */
  lemma {:induction false} SetFirstAnchorRelabels(f: seq<Element>, value: string)
    requires SetFirstAnchor(f, value).Some?
    ensures RelabelsFirst(DocumentOrder(f), DocumentOrder(SetFirstAnchor(f, value).value), IsAnchor, SetValueTo(value))
    decreases f
  {
    var e, rest := f[0], f[1..];
    assert f == [e] + rest;
    var kids, tail := DocumentOrder(e.children), DocumentOrder(rest);
    DocumentOrderCons(e, rest);
    if IsAnchor(LabelOf(e)) {
      var e' := e.(attributes := RubyHash.Store(e.attributes, ValueAttribute, value));
      DocumentOrderCons(e', rest);
      RelabelFront(LabelOf(e), kids + tail, IsAnchor, SetValueTo(value));
    } else if SetFirstAnchor(e.children, value).Some? {
      var cs := SetFirstAnchor(e.children, value).value;
      SetFirstAnchorRelabels(e.children, value);
      DocumentOrderCons(e.(children := cs), rest);
      RelabelMiddle(LabelOf(e), kids, DocumentOrder(cs), tail, IsAnchor, SetValueTo(value));
    } else {
      var rest' := SetFirstAnchor(rest, value).value;
      SetFirstAnchorFails(e.children, value);
      SetFirstAnchorRelabels(rest, value);
      DocumentOrderCons(e, rest');
      RelabelLast(LabelOf(e), kids, tail, DocumentOrder(rest'), IsAnchor, SetValueTo(value));
    }
  }

  /**
    When the edit succeeds, only the first anchor in document order changes,
    and only its `android:value` attribute: every other element keeps its tag
    and attributes.
  */
  lemma SetFirstAnchorChangesOnlyFirst(f: seq<Element>, value: string)
    requires SetFirstAnchor(f, value).Some?
    ensures FirstAnchor(DocumentOrder(f)).Some?
    ensures var i := FirstAnchor(DocumentOrder(f)).value;
      DocumentOrder(SetFirstAnchor(f, value).value) == DocumentOrder(f)[i := SetValue(DocumentOrder(f)[i], value)]
  {
    SetFirstAnchorRelabels(f, value);
  }

  /** Updating twice with the same channel name gives the document updating once gives. */
  lemma {:induction false} SetFirstAnchorIdempotent(f: seq<Element>, value: string)
    requires SetFirstAnchor(f, value).Some?
    ensures SetFirstAnchor(SetFirstAnchor(f, value).value, value) == SetFirstAnchor(f, value)
    decreases f
  {
    var e, rest := f[0], f[1..];
    if IsAnchor(LabelOf(e)) {
      var e' := e.(attributes := RubyHash.Store(e.attributes, ValueAttribute, value));
      assert IsAnchor(LabelOf(e'));
      RubyHash.StoreOverwrite(e.attributes, ValueAttribute, value, value);
      assert ([e'] + rest)[1..] == rest;
    } else if SetFirstAnchor(e.children, value).Some? {
      SetFirstAnchorIdempotent(e.children, value);
      var cs := SetFirstAnchor(e.children, value).value;
      assert ([e.(children := cs)] + rest)[1..] == rest;
    } else {
      SetFirstAnchorIdempotent(rest, value);
      var rest' := SetFirstAnchor(rest, value).value;
      assert ([e] + rest')[1..] == rest';
    }
  }
}
