/**
  The span registry: the channel's map from delivery tag to the span still
  open for that delivery (`Channel.spanMap`), and what the acknowledger's two
  removal disciplines do to it. These functions are the specification the
  stateful acknowledger is proved against.
*/
module Registry {
  import Trace

  /** A delivery tag: an unsigned 64-bit integer assigned by the broker per channel. */
  newtype Tag = x: int | 0 <= x < 0x1_0000_0000_0000_0000

  type SpanMap = map<Tag, Trace.SpanId>

  /** No span is registered under two tags. */
  ghost predicate Injective(m: SpanMap)
  {
    forall s, t :: s in m && t in m && s != t ==> m[s] != m[t]
  }

  /** The tags a `multiple` acknowledgement up to `lastTag` resolves: all registered tags <= lastTag. */
  function ResolvedTags(m: SpanMap, lastTag: Tag): (r: set<Tag>)
    ensures r <= m.Keys
    ensures forall t :: t in r <==> t in m && t <= lastTag
  {
    set t | t in m && t <= lastTag
  }

  /** The spans registered under a set of tags. */
  function Image(m: SpanMap, tags: set<Tag>): (r: set<Trace.SpanId>)
    requires tags <= m.Keys
    ensures forall t :: t in tags ==> m[t] in r
    ensures forall id :: id in r ==> exists t :: t in tags && m[t] == id
  {
    set t | t in tags :: m[t]
  }

  /** The spans a `multiple` acknowledgement up to `lastTag` resolves. */
  function ResolvedSpans(m: SpanMap, lastTag: Tag): set<Trace.SpanId>
  {
    Image(m, ResolvedTags(m, lastTag))
  }

  /** The registry after resolving every tag <= lastTag: exactly the entries above lastTag, unchanged. */
  function Outstanding(m: SpanMap, lastTag: Tag): (r: SpanMap)
    ensures forall t :: t in r <==> t in m && lastTag < t
    ensures forall t :: t in r ==> r[t] == m[t]
  {
    map t | t in m && lastTag < t :: m[t]
  }

  /** The map shrinks by exactly the number of tags resolved. */
  lemma OutstandingSize(m: SpanMap, lastTag: Tag)
    ensures |Outstanding(m, lastTag)| == |m| - |ResolvedTags(m, lastTag)|
  {
    var r := Outstanding(m, lastTag);
    assert r.Keys == m.Keys - ResolvedTags(m, lastTag);
    assert |m.Keys| == |m.Keys - ResolvedTags(m, lastTag)| + |ResolvedTags(m, lastTag)|;
  }

  /** In an injective registry, a set of tags names as many spans as it has tags. */
  lemma {:induction false} ImageSize(m: SpanMap, tags: set<Tag>)
    requires tags <= m.Keys && Injective(m)
    ensures |Image(m, tags)| == |tags|
    decreases tags
  {
    if tags != {} {
      var t :| t in tags;
      var rest := tags - {t};
      ImageSize(m, rest);
      assert Image(m, tags) == Image(m, rest) + {m[t]};
    }
  }

  /** So a `multiple` resolution ends exactly as many spans as it removes entries. */
  lemma ResolvedSpansCount(m: SpanMap, lastTag: Tag)
    requires Injective(m)
    ensures |ResolvedSpans(m, lastTag)| == |ResolvedTags(m, lastTag)| == |m| - |Outstanding(m, lastTag)|
  {
    ImageSize(m, ResolvedTags(m, lastTag));
    OutstandingSize(m, lastTag);
  }

  /** Resolving up to a tag twice, or up to two tags in turn, is resolving up to the larger. */
  lemma OutstandingCompose(m: SpanMap, a: Tag, b: Tag)
    ensures Outstanding(Outstanding(m, a), b) == Outstanding(m, if a < b then b else a)
    ensures Outstanding(Outstanding(m, a), a) == Outstanding(m, a)
  {
  }

  /**
    Resolving one tag removes at most that entry: a tag no longer registered
    leaves the map as it is, so a second resolution of the same tag is a
    no-op on the registry.
  */
  lemma RemoveOne(m: SpanMap, tag: Tag)
    ensures (m - {tag}).Keys == m.Keys - {tag}
    ensures |m - {tag}| == if tag in m then |m| - 1 else |m|
    ensures tag !in m ==> m - {tag} == m
    ensures (m - {tag}) - {tag} == m - {tag}
  {
    if tag !in m {
      assert m - {tag} == m;
    }
  }

  /** A `multiple` resolution leaves nothing at or below its tag; a later single resolution of such a tag changes nothing. */
  lemma SingleAfterMultiple(m: SpanMap, lastTag: Tag, tag: Tag)
    requires tag <= lastTag
    ensures Outstanding(m, lastTag) - {tag} == Outstanding(m, lastTag)
  {
    RemoveOne(Outstanding(m, lastTag), tag);
  }

  /** Registering a fresh span keeps the registry injective, whether or not the tag was present. */
  lemma InsertFresh(m: SpanMap, tag: Tag, id: Trace.SpanId)
    requires Injective(m)
    requires forall t :: t in m ==> m[t] != id
    ensures Injective(m[tag := id])
    ensures (m[tag := id]).Keys == m.Keys + {tag}
    ensures forall t :: t in m && t != tag ==> m[tag := id][t] == m[t]
  {
  }

  /** Both removals keep the registry injective. */
  lemma RemovalKeepsInjective(m: SpanMap, lastTag: Tag, tag: Tag)
    requires Injective(m)
    ensures Injective(Outstanding(m, lastTag))
    ensures Injective(m - {tag})
  {
  }

  /** One more resolved tag names one more span, a span none of the tags resolved so far names. */
  lemma ResolveStep(m: SpanMap, resolved: set<Tag>, tag: Tag)
    requires Injective(m) && resolved <= m.Keys && tag in m && tag !in resolved
    ensures m[tag] !in Image(m, resolved)
    ensures Image(m, resolved + {tag}) == Image(m, resolved) + {m[tag]}
    ensures (m - resolved) - {tag} == m - (resolved + {tag})
  {
  }

  /** Once every tag has been visited, the tags resolved are those <= lastTag and what is left is `Outstanding`. */
  lemma ResolveDone(m: SpanMap, resolved: set<Tag>, lastTag: Tag)
    requires Injective(m)
    requires forall t :: t in resolved <==> t in m && t <= lastTag
    ensures resolved == ResolvedTags(m, lastTag)
    ensures m - resolved == Outstanding(m, lastTag)
    ensures Injective(m - resolved)
  {
    RemovalKeepsInjective(m, lastTag, lastTag);
  }
}
