/**
  Cache keys and the hit-rate registry: `backend/src/cache/cacheKeys.ts` and `backend/src/cache/hitRate.ts`.
 */
module CacheKeys {
  import opened JsText

  const ROOT := "ipredict"
  const ENTITIES: seq<string> := ["market", "markets", "leaderboard", "stats", "status", "bets", "odds"]
  const OTHER := "other"
  const NAMESPACES: seq<string> := ENTITIES + [OTHER]

  /** `getVersion`. */
  function VersionSegment(version: nat): string { "v" + Decimal(version) }

  /** `parts.join(":")`. */
  function Join(parts: seq<string>): string
    requires parts != []
  {
    if |parts| == 1 then parts[0] else parts[0] + (":" + Join(parts[1..]))
  }

  /** The first segment of `s`, and the others. */
  function Cut(s: string): (string, seq<string>) {
    if s == "" then ("", [])
    else
      var (head, rest) := Cut(s[1..]);
      if s[0] == ':' then ("", [head] + rest) else ([s[0]] + head, rest)
  }

  /** `s.split(":")`. */
  function Split(s: string): (segments: seq<string>)
    ensures segments != []
  {
    [Cut(s).0] + Cut(s).1
  }

  function CacheKey(version: nat, entity: string, parts: seq<string>): string {
    Join([ROOT, VersionSegment(version), entity] + parts)
  }

  /** `key.split(":", 3)` keeps the first three segments. */
  function NamespaceOf(key: string): string {
    var all := Split(key);
    var segments := if |all| > 3 then all[..3] else all;
    var entity := if |segments| == 3 then segments[2] else "";
    if entity in ENTITIES then entity else OTHER
  }

  // ----- join and split -----

  lemma {:induction false} JoinOfSplit(s: string)
    ensures Join(Split(s)) == s
  {
    if s != "" {
      JoinOfSplit(s[1..]);
      var (head, rest) := Cut(s[1..]);
      assert s == [s[0]] + s[1..];
      if s[0] == ':' {
        JoinCons("", [head] + rest);
      } else if rest != [] {
        JoinCons(head, rest);
        JoinCons([s[0]] + head, rest);
      }
    }
  }

  lemma JoinCons(s: string, rest: seq<string>)
    requires rest != []
    ensures Join([s] + rest) == s + (":" + Join(rest))
  {
    assert ([s] + rest)[1..] == rest;
  }

  lemma {:induction false} CutOfColon(a: string, b: string)
    ensures Cut(a + (":" + b)) == (Cut(a).0, Cut(a).1 + Split(b))
  {
    if a == "" {
      assert "" + (":" + b) == ":" + b && (":" + b)[1..] == b;
      assert [] + Split(b) == Split(b);
    } else {
      CutOfColon(a[1..], b);
      assert (a + (":" + b))[1..] == a[1..] + (":" + b);
      if a[0] == ':' {
        assert [Cut(a[1..]).0] + (Cut(a[1..]).1 + Split(b)) == ([Cut(a[1..]).0] + Cut(a[1..]).1) + Split(b);
      }
    }
  }

  lemma SplitOfColon(a: string, b: string)
    ensures Split(a + (":" + b)) == Split(a) + Split(b)
  {
    CutOfColon(a, b);
  }

  lemma {:induction false} SplitWithoutColon(s: string)
    requires ':' !in s
    ensures Split(s) == [s] && Cut(s) == (s, [])
  {
    if s != "" {
      SplitWithoutColon(s[1..]);
      assert [s[0]] + s[1..] == s;
    }
  }

  /** The segments of all the parts. */
  function Segments(parts: seq<string>): seq<string> {
    if parts == [] then [] else Split(parts[0]) + Segments(parts[1..])
  }

  lemma {:induction false} SplitOfJoin(parts: seq<string>)
    requires parts != []
    ensures Split(Join(parts)) == Segments(parts)
  {
    if |parts| == 1 {
      assert Segments(parts[1..]) == [];
      assert Split(parts[0]) + [] == Split(parts[0]);
    } else {
      SplitOfJoin(parts[1..]);
      SplitOfColon(parts[0], Join(parts[1..]));
    }
  }

  /** Two keys are the same if and only if their versions are and their parts have the same colon-separated
      segments; so parts without colons are kept apart, and parts with colons may not be. */
  lemma KeysAgreeIff(version: nat, entity: string, parts: seq<string>, version': nat, entity': string, parts': seq<string>)
    ensures CacheKey(version, entity, parts) == CacheKey(version', entity', parts') <==>
              version == version' && Segments([entity] + parts) == Segments([entity'] + parts')
  {
    KeySegments(version, entity, parts);
    KeySegments(version', entity', parts');
    JoinOfSplit(CacheKey(version, entity, parts));
    JoinOfSplit(CacheKey(version', entity', parts'));
    VersionsDiffer(version, version');
    PrefixesAgree("v" + Decimal(version), Segments([entity] + parts), "v" + Decimal(version'), Segments([entity'] + parts'));
  }

  lemma PrefixesAgree(v: string, s: seq<string>, w: string, t: seq<string>)
    ensures ["ipredict", v] + s == ["ipredict", w] + t <==> v == w && s == t
  {
    var a, b := ["ipredict", v] + s, ["ipredict", w] + t;
    assert a[1] == v && b[1] == w && a[2..] == s && b[2..] == t;
  }

  lemma VersionsDiffer(version: nat, version': nat)
    ensures "v" + Decimal(version) == "v" + Decimal(version') <==> version == version'
  {
    DecimalValue(version);
    DecimalValue(version');
    assert ("v" + Decimal(version))[1..] == Decimal(version) && ("v" + Decimal(version'))[1..] == Decimal(version');
  }

  lemma KeySegments(version: nat, entity: string, parts: seq<string>)
    ensures Split(CacheKey(version, entity, parts)) == ["ipredict", "v" + Decimal(version)] + Segments([entity] + parts)
  {
    PrefixedSegments(ROOT, VersionSegment(version), entity, parts);
  }

  lemma PrefixedSegments(root: string, v: string, entity: string, parts: seq<string>)
    requires ':' !in root && ':' !in v
    ensures Split(Join([root, v, entity] + parts)) == [root, v] + Segments([entity] + parts)
  {
    var tail := [entity] + parts;
    SplitOfJoin([root, v, entity] + parts);
    assert [root, v, entity] + parts == [root] + ([v] + tail);
    PlainSegment(root, [v] + tail);
    PlainSegment(v, tail);
    Assoc([root], [v], Segments(tail));
  }

  lemma PlainSegment(s: string, tail: seq<string>)
    requires ':' !in s
    ensures Segments([s] + tail) == [s] + Segments(tail)
  {
    SplitWithoutColon(s);
    SegmentsCons(s, tail);
  }

  lemma {:induction false} NoColons(parts: seq<string>)
    requires forall p | p in parts :: ':' !in p
    ensures Segments(parts) == parts
  {
    if parts != [] {
      SplitWithoutColon(parts[0]);
      NoColons(parts[1..]);
    }
  }

  /** Keys built from colon-free parts determine their entity and parts. */
  lemma KeysAreInjective(version: nat, entity: string, parts: seq<string>, entity': string, parts': seq<string>)
    requires ':' !in entity && ':' !in entity' && (forall p | p in parts + parts' :: ':' !in p)
    requires CacheKey(version, entity, parts) == CacheKey(version, entity', parts')
    ensures entity == entity' && parts == parts'
  {
    KeysAgreeIff(version, entity, parts, version, entity', parts');
    var all, all' := [entity] + parts, [entity'] + parts';
    assert forall p | p in all || p in all' :: p == entity || p == entity' || p in parts + parts';
    NoColons(all);
    NoColons(all');
    assert all[1..] == parts && all'[1..] == parts';
  }

  /** But a colon inside a part is the colon between two parts: the category `a:b` with sort `new` makes
      the key of the category `a` with sort `b:new`. */
  lemma ColonsCollide(version: nat, entity: string, pre: seq<string>, a: string, b: string, x: string, post: seq<string>)
    ensures CacheKey(version, entity, pre + ([a + (":" + b), x] + post)) == CacheKey(version, entity, pre + ([a, b + (":" + x)] + post))
  {
    var p, q := [a + (":" + b), x] + post, [a, b + (":" + x)] + post;
    SplitOfColon(a, b);
    SplitOfColon(b, x);
    TwoSegments(a + (":" + b), x, post);
    TwoSegments(a, b + (":" + x), post);
    Assoc(Split(a), Split(b), Split(x));
    SegmentsAppend([entity] + pre, p);
    SegmentsAppend([entity] + pre, q);
    Assoc([entity], pre, p);
    Assoc([entity], pre, q);
    KeysAgreeIff(version, entity, pre + p, version, entity, pre + q);
  }

  lemma TwoSegments(a: string, b: string, post: seq<string>)
    ensures Segments([a, b] + post) == (Split(a) + Split(b)) + Segments(post)
  {
    assert [a, b] + post == [a] + ([b] + post);
    SegmentsCons(a, [b] + post);
    SegmentsCons(b, post);
    Assoc(Split(a), Split(b), Segments(post));
  }

  lemma Assoc<T>(a: seq<T>, b: seq<T>, c: seq<T>)
    ensures a + (b + c) == (a + b) + c
  {
  }

  lemma SegmentsCons(s: string, tail: seq<string>)
    ensures Segments([s] + tail) == Split(s) + Segments(tail)
  {
    assert ([s] + tail)[1..] == tail;
  }

  lemma {:induction false} SegmentsAppend(a: seq<string>, b: seq<string>)
    ensures Segments(a + b) == Segments(a) + Segments(b)
  {
    if a == [] {
      assert a + b == b;
    } else {
      SegmentsAppend(a[1..], b);
      assert a + b == [a[0]] + (a[1..] + b);
      SegmentsCons(a[0], a[1..] + b);
      Assoc(Split(a[0]), Segments(a[1..]), Segments(b));
    }
  }

  // ----- the namespace of a built key -----

  lemma NamespaceIsKnown(key: string)
    ensures NamespaceOf(key) in NAMESPACES
  {
    assert NAMESPACES[7] == OTHER;
    assert forall e | e in ENTITIES :: e in ENTITIES + [OTHER];
  }

  /** A built key is counted under the first colon segment of its entity if that is a known entity, and
      under `other` if not. */
  lemma BuiltKeyNamespace(version: nat, entity: string, parts: seq<string>)
    ensures NamespaceOf(CacheKey(version, entity, parts)) ==
              if Split(entity)[0] in ENTITIES then Split(entity)[0] else OTHER
  {
    KeySegments(version, entity, parts);
    assert ([entity] + parts)[1..] == parts;
    var all := Split(CacheKey(version, entity, parts));
    assert all[2] == Split(entity)[0];
  }

  /** It is counted under its own entity if and only if the entity is known (or is the word `other`). */
  lemma BuiltKeyCountedUnderItsEntityIff(version: nat, entity: string, parts: seq<string>)
    ensures NamespaceOf(CacheKey(version, entity, parts)) == entity <==> entity in NAMESPACES
  {
    BuiltKeyNamespace(version, entity, parts);
    if entity in NAMESPACES {
      NamespacesHaveNoColon(entity);
      SplitWithoutColon(entity);
    }
  }

  lemma NamespacesHaveNoColon(entity: string)
    requires entity in NAMESPACES
    ensures ':' !in entity
  {
    var i :| 0 <= i < |NAMESPACES| && NAMESPACES[i] == entity;
    assert NAMESPACES[7] == "other";
    forall k | 0 <= k < |entity| ensures entity[k] != ':' {
    }
  }
}

module HitRate {
  import opened CacheKeys
  import opened Sequences

  datatype Counts = Counts(hits: nat, misses: nat)

  datatype Lookup = Lookup(key: string, hit: bool)

  function Add(c: Counts, hit: bool): Counts {
    if hit then c.(hits := c.hits + 1) else c.(misses := c.misses + 1)
  }

  function Bucket(m: map<string, Counts>, namespace: string): Counts {
    if namespace in m then m[namespace] else Counts(0, 0)
  }

  /** Counts of the lookups whose key is in the namespace. */
  function CountsIn(lookups: seq<Lookup>, namespace: string): Counts {
    if lookups == [] then Counts(0, 0)
    else
      var l, before := Last(lookups), CountsIn(Front(lookups), namespace);
      if NamespaceOf(l.key) == namespace then Add(before, l.hit) else before
  }

  function CountsOf(lookups: seq<Lookup>): Counts {
    if lookups == [] then Counts(0, 0) else Add(CountsOf(Front(lookups)), Last(lookups).hit)
  }

  /** The buckets are those of the namespaces looked up, and count their lookups. */
  ghost predicate Exact(m: map<string, Counts>, lookups: seq<Lookup>) {
    && (forall l | l in lookups :: NamespaceOf(l.key) in m)
    && (forall n | n in m :: n in NAMESPACES)
    && (forall n | n in NAMESPACES :: Bucket(m, n) == CountsIn(lookups, n))
  }

  lemma RecordKeepsExact(m: map<string, Counts>, lookups: seq<Lookup>, l: Lookup)
    requires Exact(m, lookups)
    ensures var n := NamespaceOf(l.key); Exact(m[n := Add(Bucket(m, n), l.hit)], lookups + [l])
  {
    var x := NamespaceOf(l.key);
    NamespaceIsKnown(l.key);
    var m' := m[x := Add(Bucket(m, x), l.hit)];
    forall n | n in NAMESPACES ensures Bucket(m', n) == CountsIn(lookups + [l], n) {
      CountsStep(lookups, l, n);
    }
  }

  lemma CountsStep(lookups: seq<Lookup>, l: Lookup, n: string)
    ensures CountsIn(lookups + [l], n) ==
              if NamespaceOf(l.key) == n then Add(CountsIn(lookups, n), l.hit) else CountsIn(lookups, n)
  {
    assert Front(lookups + [l]) == lookups;
  }

  /** The module state of `hitRate.ts`; `lookups` is bookkeeping of the model, the calls since the last reset. */
  class Registry {
    var totals: Counts
    var perNamespace: map<string, Counts>
    ghost var lookups: seq<Lookup>

    ghost predicate Valid()
      reads this
    {
      totals == CountsOf(lookups) && Exact(perNamespace, lookups)
    }

    constructor ()
      ensures Valid() && lookups == []
    {
      totals, perNamespace, lookups := Counts(0, 0), map[], [];
    }

    /** `recordCacheHit` and `recordCacheMiss`. */
    method Record(key: string, hit: bool)
      requires Valid()
      modifies this
      ensures Valid() && lookups == old(lookups) + [Lookup(key, hit)]
      ensures totals == Add(old(totals), hit)
      ensures perNamespace == old(perNamespace)[NamespaceOf(key) := Add(Bucket(old(perNamespace), NamespaceOf(key)), hit)]
    {
      var n := NamespaceOf(key);
      RecordKeepsExact(perNamespace, lookups, Lookup(key, hit));
      totals := Add(totals, hit);
      perNamespace := perNamespace[n := Add(Bucket(perNamespace, n), hit)];
      lookups := lookups + [Lookup(key, hit)];
      assert Front(lookups) == old(lookups);
    }

    method ResetStats()
      modifies this
      ensures Valid() && lookups == []
    {
      totals, perNamespace, lookups := Counts(0, 0), map[], [];
    }
  }

  function SumCounts(m: map<string, Counts>, names: seq<string>): Counts {
    if names == [] then Counts(0, 0)
    else
      var rest, c := SumCounts(m, names[1..]), Bucket(m, names[0]);
      Counts(c.hits + rest.hits, c.misses + rest.misses)
  }

  function SumOverNames(lookups: seq<Lookup>, names: seq<string>): Counts {
    if names == [] then Counts(0, 0)
    else
      var rest, c := SumOverNames(lookups, names[1..]), CountsIn(lookups, names[0]);
      Counts(c.hits + rest.hits, c.misses + rest.misses)
  }

  predicate Distinct(names: seq<string>) { forall i, j | 0 <= i < j < |names| :: names[i] != names[j] }

  /** One lookup raises the sum over distinct names by itself if its namespace is among them. */
  lemma {:induction false} OneMoreLookup(lookups: seq<Lookup>, names: seq<string>)
    requires lookups != [] && Distinct(names)
    ensures SumOverNames(lookups, names) ==
              if NamespaceOf(Last(lookups).key) in names then Add(SumOverNames(Front(lookups), names), Last(lookups).hit)
              else SumOverNames(Front(lookups), names)
  {
    if names != [] {
      OneMoreLookup(lookups, names[1..]);
    }
  }

  lemma NamespacesAreDistinct()
    ensures Distinct(NAMESPACES)
  {
    assert NAMESPACES == ["market", "markets", "leaderboard", "stats", "status", "bets", "odds", "other"];
    assert |"market"| == 6 && |"markets"| == 7 && |"leaderboard"| == 11 && |"stats"| == 5 && |"status"| == 6;
    assert "market"[0] == 'm' && "status"[0] == 's' && "stats"[0] == 's' && "other"[0] == 'o' && "bets"[0] == 'b' && "odds"[0] == 'o';
  }

  /** Every lookup is counted under exactly one known namespace or `other`: the namespaces sum to the totals. */
  lemma {:induction false} NamespacesSumToTotals(lookups: seq<Lookup>)
    ensures SumOverNames(lookups, NAMESPACES) == CountsOf(lookups)
  {
    NamespacesAreDistinct();
    if lookups == [] {
      NothingLookedUp(NAMESPACES);
    } else {
      NamespacesSumToTotals(Front(lookups));
      OneMoreLookup(lookups, NAMESPACES);
      assert NAMESPACES[7] == OTHER;
    }
  }

  lemma {:induction false} NothingLookedUp(names: seq<string>)
    ensures SumOverNames([], names) == Counts(0, 0)
  {
    if names != [] {
      NothingLookedUp(names[1..]);
    }
  }

  /** In every state of the registry the buckets sum to the totals, and there are no buckets but those of
      the known namespaces and `other`. */
  lemma RegistrySums(r: Registry)
    requires r.Valid()
    ensures SumCounts(r.perNamespace, NAMESPACES) == r.totals
    ensures forall n | n in r.perNamespace :: n in NAMESPACES
  {
    NamespacesSumToTotals(r.lookups);
    BucketsAreCounts(r, NAMESPACES);
  }

  lemma {:induction false} BucketsAreCounts(r: Registry, names: seq<string>)
    requires r.Valid() && forall n | n in names :: n in NAMESPACES
    ensures SumCounts(r.perNamespace, names) == SumOverNames(r.lookups, names)
  {
    if names != [] {
      BucketsAreCounts(r, names[1..]);
    }
  }

  /** How many of the lookups in a namespace were hits, or misses. */
  function HowMany(lookups: seq<Lookup>, namespace: string, hit: bool): nat {
    if lookups == [] then 0
    else HowMany(lookups[1..], namespace, hit) + if NamespaceOf(lookups[0].key) == namespace && lookups[0].hit == hit then 1 else 0
  }

  function HowManyAtAll(lookups: seq<Lookup>, hit: bool): nat {
    if lookups == [] then 0 else HowManyAtAll(lookups[1..], hit) + if lookups[0].hit == hit then 1 else 0
  }

  lemma {:induction false} HowManySnoc(lookups: seq<Lookup>, namespace: string, hit: bool)
    requires lookups != []
    ensures HowMany(lookups, namespace, hit)
         == HowMany(Front(lookups), namespace, hit) + if NamespaceOf(Last(lookups).key) == namespace && Last(lookups).hit == hit then 1 else 0
    ensures HowManyAtAll(lookups, hit) == HowManyAtAll(Front(lookups), hit) + if Last(lookups).hit == hit then 1 else 0
  {
    if |lookups| > 1 {
      assert Front(lookups)[1..] == Front(lookups[1..]);
      HowManySnoc(lookups[1..], namespace, hit);
    }
  }

  lemma {:induction false} CountsAreNumbers(lookups: seq<Lookup>, namespace: string)
    ensures CountsOf(lookups) == Counts(HowManyAtAll(lookups, true), HowManyAtAll(lookups, false))
    ensures CountsIn(lookups, namespace) == Counts(HowMany(lookups, namespace, true), HowMany(lookups, namespace, false))
  {
    if lookups != [] {
      CountsAreNumbers(Front(lookups), namespace);
      HowManySnoc(lookups, namespace, true);
      HowManySnoc(lookups, namespace, false);
    }
  }

  /** In every state of the registry the totals are the numbers of hits and of misses there were, and each
      known namespace's bucket has those of its own lookups. */
  lemma RegistryCounts(r: Registry, namespace: string)
    requires r.Valid() && namespace in NAMESPACES
    ensures r.totals == Counts(HowManyAtAll(r.lookups, true), HowManyAtAll(r.lookups, false))
    ensures var hits, misses := HowMany(r.lookups, namespace, true), HowMany(r.lookups, namespace, false);
            if namespace in r.perNamespace then r.perNamespace[namespace] == Counts(hits, misses) else hits == 0 && misses == 0
  {
    CountsAreNumbers(r.lookups, namespace);
  }
}
