/** News clusters (src/collectors/news/dedup.py). Records are shared objects whose fields `assign` updates in place.

    Normalisation of titles, splitting into words, the fuzzy ratio, hashing and the domain of a URL are arbitrary
    functions. */
module News {
  import opened Common

  class NewsRecord {
    const title: string
    const url: string
    const source: string
    const effectiveTs: int
    const tier: nat
    var clusterId: Option<string>
    var isOriginal: bool
    var confirmations: nat
    var isConfirmed: bool

    constructor (title: string, url: string, source: string, effectiveTs: int, tier: nat)
      ensures this.title == title && this.url == url && this.source == source
      ensures this.effectiveTs == effectiveTs && this.tier == tier
      ensures clusterId == None && isOriginal && confirmations == 0 && !isConfirmed
    {
      this.title, this.url, this.source := title, url, source;
      this.effectiveTs, this.tier := effectiveTs, tier;
      clusterId, isOriginal, confirmations, isConfirmed := None, true, 0, false;
    }
  }

  /** The text functions the clusterer relies on. */
  datatype Text = Text(
    normalize: string -> string, words: string -> set<string>, ratio: (string, string) -> real,
    hash: string -> string, domain: string -> string)
  {
    function Fingerprint(title: string): string {
      hash(normalize(title))
    }

    /** Six words in ten shared, or a fuzzy ratio of 82. */
    predicate Similar(a: string, b: string) {
      var wa, wb := words(normalize(a)), words(normalize(b));
      && a != "" && b != ""
      && ((wa != {} && wb != {} && 10 * |wa * wb| >= 6 * |wa + wb|) || ratio(normalize(a), normalize(b)) >= 82.0)
    }

    predicate Blank(r: NewsRecord) {
      normalize(r.title) == ""
    }

    /** What splitting and the ratio do with normal forms that are nothing. */
    ghost predicate Sane() {
      && normalize("") == ""
      && (forall t :: words(normalize(t)) == {} <==> normalize(t) == "")
      && (forall t :: ratio("", normalize(t)) < 82.0 && ratio(normalize(t), "") < 82.0)
    }

    /** Titles with one normal form are similar exactly when something is left of them. */
    lemma SameNormalForm(a: string, b: string)
      requires Sane() && normalize(a) == normalize(b)
      ensures Similar(a, b) <==> normalize(a) != ""
    {
      var w := words(normalize(a));
      assert w * w == w && w + w == w;
    }

    /** Similarity in numbers: of all the words of both titles six in ten are shared, or the fuzzy ratio is at least 82;
        and never with an empty title. */
    lemma SimilarIff(a: string, b: string)
      ensures var wa, wb := words(normalize(a)), words(normalize(b));
              Similar(a, b) <==>
              && a != "" && b != ""
              && (|| ratio(normalize(a), normalize(b)) >= 82.0
                  || (wa != {} && wb != {} && |wa * wb| as real / |wa + wb| as real >= 0.6))
    {
      var wa, wb := words(normalize(a)), words(normalize(b));
      if wa != {} {
        SomeWords(wa, wb);
        QuotientBound(|wa * wb| as real, |wa + wb| as real, 0.6);
      }
    }

    lemma SomeWords(wa: set<string>, wb: set<string>)
      requires wa != {}
      ensures |wa + wb| > 0
    {
      var w :| w in wa;
      assert w in wa + wb;
    }

    /** A title of which nothing is left is similar to no other. */
    lemma BlankIsAlone(a: string, b: string)
      requires Sane() && (normalize(a) == "" || normalize(b) == "")
      ensures !Similar(a, b)
    {
    }

    /** No two of these titles share a fingerprint without sharing their normal form. */
    ghost predicate NoCollision(titles: set<string>) {
      forall a, b :: a in titles && b in titles && Fingerprint(a) == Fingerprint(b) ==> normalize(a) == normalize(b)
    }
  }

  /** Text functions of that kind: nothing removed, the whole title as one word, no fuzzy match, no collision. */
  const PLAIN_TEXT := Text(
    (title: string) => title, (title: string) => if title == "" then {} else {title}, (a: string, b: string) => 0.0,
    (title: string) => title, (url: string) => url)

  lemma PlainTextIsSane(titles: set<string>)
    ensures PLAIN_TEXT.Sane() && PLAIN_TEXT.NoCollision(titles)
  {
  }

  // ---------------------------------------------------------------- what the fields mean

  function Domains(members: seq<NewsRecord>, text: Text): set<string> {
    set m | m in members :: text.domain(m.url)
  }

  /** The position of the first member with the earliest time: Python's `min`. */
  function Earliest(members: seq<NewsRecord>): (e: nat)
    requires members != []
    ensures e < |members|
    ensures forall i :: 0 <= i < |members| ==> members[e].effectiveTs <= members[i].effectiveTs
    ensures forall i :: 0 <= i < e ==> members[e].effectiveTs < members[i].effectiveTs
  {
    var n := |members| - 1;
    if n == 0 then 0
    else
      var e := Earliest(members[..n]);
      if members[n].effectiveTs < members[e].effectiveTs then n else e
  }

  predicate Distinct(members: seq<NewsRecord>) {
    forall i, j :: 0 <= i < j < |members| ==> members[i] != members[j]
  }

  /** The fields of one member of a cluster with that many domains. */
  predicate Says(m: NewsRecord, id: string, original: bool, domains: nat)
    reads m
  {
    && m.clusterId == Some(id)
    && (m.isOriginal <==> original)
    && m.confirmations + 1 == domains
    && (m.isConfirmed <==> m.confirmations >= 1 || m.tier == 1)
  }

  /** The fields of every member say what the cluster is: one original, the first earliest; as many independent
      confirmations as further domains; confirmed when there is one or the source is of tier 1. */
  ghost predicate Labelled(id: string, members: seq<NewsRecord>, text: Text)
    reads members
  {
    && members != [] && Distinct(members)
    && forall i :: 0 <= i < |members| ==>
         Says(members[i], id, i == Earliest(members), |Domains(members, text)|)
  }

  /** The domains are those of the members' addresses. */
  lemma DomainsOfUrls(members: seq<NewsRecord>, text: Text, d: string)
    ensures d in Domains(members, text) <==> exists i :: 0 <= i < |members| && text.domain(members[i].url) == d
  {
    if d in Domains(members, text) {
      var m :| m in members && text.domain(m.url) == d;
    }
  }

  lemma DomainsNonEmpty(members: seq<NewsRecord>, text: Text)
    requires members != []
    ensures |Domains(members, text)| >= 1
  {
    assert text.domain(members[0].url) in Domains(members, text);
  }

  lemma DomainsGrow(members: seq<NewsRecord>, r: NewsRecord, text: Text)
    ensures |Domains(members, text)| <= |Domains(members + [r], text)|
  {
    var more := Domains(members + [r], text);
    assert Domains(members, text) <= more;
    SubsetSmaller(Domains(members, text), more);
  }

  lemma SubsetSmaller<T>(a: set<T>, b: set<T>)
    requires a <= b
    ensures |a| <= |b|
  {
    assert b == a + (b - a);
  }

  type Clusters = map<string, seq<NewsRecord>>

  /** The dictionary: its keys in order, no empty cluster, each named after the title of its first record, to which
      the titles of all the others are similar. */
  ghost predicate Indexed(order: seq<string>, clusters: Clusters, text: Text) {
    && (forall id :: id in order <==> id in clusters)
    && (forall i, j :: 0 <= i < j < |order| ==> order[i] != order[j])
    && (forall id :: id in clusters ==> clusters[id] != [] && text.Fingerprint(clusters[id][0].title) == id)
    && (forall id, k :: id in clusters && 0 < k < |clusters[id]| ==>
          text.Similar(clusters[id][k].title, clusters[id][0].title))
  }

  /** The clusters partition the records held: each record is in its home and nowhere else. */
  ghost predicate Partition(clusters: Clusters, home: map<NewsRecord, string>) {
    && (forall id, k :: id in clusters && 0 <= k < |clusters[id]| ==>
          clusters[id][k] in home && home[clusters[id][k]] == id)
    && (forall r :: r in home ==> home[r] in clusters && r in clusters[home[r]])
  }

  lemma JoinKeepsParts(
    order: seq<string>, clusters: Clusters, home: map<NewsRecord, string>, text: Text, id: string, r: NewsRecord)
    requires Indexed(order, clusters, text) && Partition(clusters, home) && id in clusters && r !in home
    requires text.Similar(r.title, clusters[id][0].title)
    ensures Indexed(order, clusters[id := clusters[id] + [r]], text)
    ensures Partition(clusters[id := clusters[id] + [r]], home[r := id])
    ensures r !in clusters[id]
  {
    hide Text.Similar, Text.Fingerprint;
  }

  /** No member of another cluster is in the one named, or is the new record. */
  lemma OthersElsewhere(clusters: Clusters, home: map<NewsRecord, string>, id: string, r: NewsRecord)
    requires Partition(clusters, home) && r !in home
    ensures forall other, k :: other in clusters && other != id && 0 <= k < |clusters[other]| ==>
              clusters[other][k] != r && (id in clusters ==> clusters[other][k] !in clusters[id])
    ensures id in clusters ==> forall m :: m in clusters[id] ==> m in home
  {
  }

  /** The homes after a cluster has been replaced by a single record. */
  ghost function Rehoused(home: map<NewsRecord, string>, id: string, r: NewsRecord): map<NewsRecord, string> {
    (map m | m in home && home[m] != id :: home[m])[r := id]
  }

  lemma StartKeepsPartition(clusters: Clusters, home: map<NewsRecord, string>, id: string, r: NewsRecord)
    requires Partition(clusters, home) && r !in home
    ensures Partition(clusters[id := [r]], Rehoused(home, id, r))
  {
  }

  lemma StartKeepsIndexed(order: seq<string>, clusters: Clusters, text: Text, id: string, r: NewsRecord)
    requires Indexed(order, clusters, text) && id == text.Fingerprint(r.title)
    ensures Indexed(if id in clusters then order else order + [id], clusters[id := [r]], text)
  {
    hide Text.Similar, Text.Fingerprint;
  }

  /** Starting a cluster keeps every record exactly when the name is new. */
  lemma StartLosesOld(clusters: Clusters, home: map<NewsRecord, string>, id: string, r: NewsRecord)
    requires Partition(clusters, home) && r !in home
    requires id in clusters ==> clusters[id] != []
    ensures r in Rehoused(home, id, r) && Rehoused(home, id, r).Keys <= home.Keys + {r}
    ensures Rehoused(home, id, r).Keys == home.Keys + {r} <==> id !in clusters
  {
    if id in clusters {
      var lost := clusters[id][0];
      assert lost in home && home[lost] == id;
      assert lost !in Rehoused(home, id, r);
    }
  }

  lemma NoHomeToLose(clusters: Clusters, home: map<NewsRecord, string>, id: string, r: NewsRecord)
    requires Partition(clusters, home) && id !in clusters
    ensures Rehoused(home, id, r).Keys == home.Keys + {r}
  {
  }

  // ---------------------------------------------------------------- the clusterer

  class NewsClusterer {
    const text: Text
    var order: seq<string>                      // insertion order of the dictionary
    var clusters: map<string, seq<NewsRecord>>
    ghost var home: map<NewsRecord, string>     // the cluster of every record in one

    /** Besides, every record's fields tell the truth about its cluster. */
    ghost predicate Valid()
      reads this, home.Keys
    {
      && Indexed(order, clusters, text) && Partition(clusters, home)
      && forall id :: id in clusters ==> Labelled(id, clusters[id], text)
    }

    constructor (text: Text)
      ensures Valid() && home == map[] && this.text == text && clusters == map[]
    {
      this.text := text;
      order, clusters, home := [], map[], map[];
    }

    /** The first cluster, from the i-th on, whose head has a similar title. */
    ghost function MatchFrom(title: string, i: nat): Option<string>
      reads this
      requires Indexed(order, clusters, text) && i <= |order|
      decreases |order| - i
    {
      if i == |order| then None
      else if text.Similar(title, clusters[order[i]][0].title) then Some(order[i])
      else MatchFrom(title, i + 1)
    }

    ghost function Match(title: string): Option<string>
      reads this
      requires Indexed(order, clusters, text)
    {
      MatchFrom(title, 0)
    }

    method FindCluster(title: string) returns (id: Option<string>)
      requires Indexed(order, clusters, text)
      ensures id == Match(title)
      ensures id.Some? ==> id.value in clusters && text.Similar(title, clusters[id.value][0].title)
    {
      for i := 0 to |order|
        invariant Match(title) == MatchFrom(title, i)
      {
        if text.Similar(title, clusters[order[i]][0].title) {
          return Some(order[i]);
        }
      }
      return None;
    }

    lemma NoMatchMeansDissimilar(title: string, i: nat, k: nat)
      requires Indexed(order, clusters, text) && i <= k < |order| && MatchFrom(title, i).None?
      ensures !text.Similar(title, clusters[order[k]][0].title)
      decreases k - i
    {
      if i < k {
        NoMatchMeansDissimilar(title, i + 1, k);
      }
    }

    method Mark(m: NewsRecord, id: string, original: bool, domains: nat)
      requires domains > 0 && (m.isConfirmed ==> domains >= 2 || m.tier == 1)
      modifies m
      ensures Says(m, id, original, domains)
      ensures old(m.isConfirmed) ==> m.isConfirmed
    {
      m.clusterId := Some(id);
      m.isOriginal := original;
      m.confirmations := domains - 1;
      m.isConfirmed := m.isConfirmed || m.confirmations >= 1 || m.tier == 1;
    }

    /** Rewrites the fields of every member of a cluster that has just grown by its last record. */
    method Relabel(id: string, members: seq<NewsRecord>)
      requires members != [] && Distinct(members)
      requires members[..|members| - 1] != [] && Labelled(id, members[..|members| - 1], text)
      requires !members[|members| - 1].isConfirmed
      modifies members
      ensures Labelled(id, members, text)
      ensures forall m :: m in members ==> old(m.isConfirmed) ==> m.isConfirmed
    {
      hide Domains;
      var domains := Domains(members, text);
      var earliest := Earliest(members);
      ConfirmedStays(id, members, text);
      for k := 0 to |members|
        modifies members
        invariant forall i :: 0 <= i < k ==> Says(members[i], id, i == earliest, |domains|)
        invariant forall i :: k <= i < |members| ==>
                    members[i].isConfirmed ==> |domains| >= 2 || members[i].tier == 1
        invariant forall i :: 0 <= i < |members| ==> old(members[i].isConfirmed) ==> members[i].isConfirmed
      {
        Mark(members[k], id, k == earliest, |domains|);
      }
    }

    /** The record joins an existing cluster. */
    method Join(id: string, r: NewsRecord)
      requires Valid() && r !in home && !r.isConfirmed && id in clusters
      requires clusters[id] != [] && text.Similar(r.title, clusters[id][0].title)
      modifies this, home.Keys, r
      ensures Valid()
      ensures order == old(order) && clusters == old(clusters)[id := old(clusters)[id] + [r]]
      ensures home == old(home)[r := id]
      ensures forall m :: m in old(home) && old(m.isConfirmed) ==> m.isConfirmed
    {
      hide Labelled, Domains, Indexed, Partition, Text.Similar;
      var members := clusters[id] + [r];
      assert members[..|members| - 1] == clusters[id];
      JoinKeepsParts(order, clusters, home, text, id, r);
      LabelledDistinct(id, clusters[id], text);
      OthersElsewhere(clusters, home, id, r);
      clusters := clusters[id := members];
      home := home[r := id];
      Relabel(id, members);
    }

    /** The record starts a cluster of its own, in place of any cluster that already has its fingerprint. */
    method Start(id: string, r: NewsRecord)
      requires Valid() && r !in home && !r.isConfirmed && id == text.Fingerprint(r.title)
      modifies this, r
      ensures Valid()
      ensures order == if id in old(clusters) then old(order) else old(order) + [id]
      ensures clusters == old(clusters)[id := [r]]
      ensures home == Rehoused(old(home), id, r)
    {
      hide Labelled, Indexed, Partition, Rehoused;
      StartKeepsPartition(clusters, home, id, r);
      StartKeepsIndexed(order, clusters, text, id, r);
      OthersElsewhere(clusters, home, id, r);
      r.clusterId := Some(id);
      r.isOriginal := true;
      r.confirmations := 0;
      r.isConfirmed := r.tier == 1;
      if id !in clusters {
        order := order + [id];
      }
      home := Rehoused(home, id, r);
      clusters := clusters[id := [r]];
      AloneIsLabelled(id, r, text);
    }

    /** Puts a fresh record into the first cluster with a similar head, or into a cluster of its own. Nothing is
        lost unless an old cluster has the fingerprint of the title without being similar to it. */
    method Assign(r: NewsRecord)
      requires Valid() && r !in home && !r.isConfirmed
      modifies this, home.Keys, r
      ensures Valid()
      ensures r in home && home.Keys <= old(home).Keys + {r}
      ensures forall m :: m in old(home) && old(m.isConfirmed) ==> m.isConfirmed
      ensures old(Match(r.title)).Some? ==>
                var id := old(Match(r.title)).value;
                && id in old(clusters)
                && order == old(order) && clusters == old(clusters)[id := old(clusters)[id] + [r]]
      ensures old(Match(r.title)).None? ==> clusters == old(clusters)[text.Fingerprint(r.title) := [r]]
      ensures home.Keys == old(home).Keys + {r} <==>
              old(Match(r.title)).Some? || text.Fingerprint(r.title) !in old(clusters)
      ensures home == if old(Match(r.title)).Some? then old(home)[r := old(Match(r.title)).value]
                      else Rehoused(old(home), text.Fingerprint(r.title), r)
    {
      hide Labelled, Match, Partition, Rehoused, Text.Similar, Text.Fingerprint;
      var id := FindCluster(r.title);
      if id.Some? {
        Join(id.value, r);
      } else {
        var own := text.Fingerprint(r.title);
        StartLosesOld(clusters, home, own, r);
        Start(own, r);
      }
    }

    /** Without collisions, only a title of which nothing is left meets a cluster of its fingerprint that it does
        not match: that cluster is the one of another such title. */
    lemma LostIffBlank(r: NewsRecord)
      requires Indexed(order, clusters, text) && Partition(clusters, home) && text.Sane()
      requires text.NoCollision(Titles(home.Keys) + {r.title})
      ensures Match(r.title).None? && text.Fingerprint(r.title) in clusters
              <==> text.Blank(r) && exists m :: m in home && text.Blank(m)
    {
      hide Text.Similar;
      var id := text.Fingerprint(r.title);
      if id in clusters {
        var head := clusters[id][0];
        assert head in home && head.title in Titles(home.Keys);
        text.SameNormalForm(r.title, head.title);
        if Match(r.title).None? {
          var k :| 0 <= k < |order| && order[k] == id;
          NoMatchMeansDissimilar(r.title, 0, k);
        }
      }
      if text.Blank(r) {
        BlankMatchesNothing(r, 0);
        if m :| m in home && text.Blank(m) {
          BlankIsHead(m);
        }
      }
    }

    lemma BlankMatchesNothing(r: NewsRecord, i: nat)
      requires Indexed(order, clusters, text) && text.Sane() && text.Blank(r) && i <= |order|
      ensures MatchFrom(r.title, i).None?
      decreases |order| - i
    {
      hide Text.Similar;
      if i < |order| {
        text.BlankIsAlone(r.title, clusters[order[i]][0].title);
        BlankMatchesNothing(r, i + 1);
      }
    }

    lemma BlankIsHead(m: NewsRecord)
      requires Indexed(order, clusters, text) && Partition(clusters, home) && text.Sane()
      requires m in home && text.Blank(m)
      ensures home[m] == text.hash("") && home[m] in clusters
    {
      hide Text.Similar;
      var id := home[m];
      var k :| 0 <= k < |clusters[id]| && clusters[id][k] == m;
      text.BlankIsAlone(m.title, clusters[id][0].title);
    }

    lemma BlankClusterIsBlank(r: NewsRecord, m: NewsRecord)
      requires Indexed(order, clusters, text) && Partition(clusters, home) && text.Sane()
      requires text.NoCollision(Titles(home.Keys) + {r.title})
      requires text.Blank(r) && m in home && home[m] == text.hash("")
      ensures text.Blank(m)
    {
      hide Text.Similar;
      var members := clusters[home[m]];
      var k :| 0 <= k < |members| && members[k] == m;
      assert members[0] in home && members[0].title in Titles(home.Keys);
      text.BlankIsAlone(m.title, members[0].title);
    }

    /** What `assign` keeps is what `Kept` says. */
    lemma AssignKeeps(r: NewsRecord)
      requires Indexed(order, clusters, text) && Partition(clusters, home) && text.Sane() && r !in home
      requires text.NoCollision(Titles(home.Keys) + {r.title})
      ensures Kept(home.Keys, r, text)
              == if Match(r.title).Some? then home.Keys + {r}
                 else Rehoused(home, text.Fingerprint(r.title), r).Keys
    {
      hide Indexed, Partition, Text.NoCollision, Text.Sane, Text.Similar, Match;
      LostIffBlank(r);
      if text.Blank(r) {
        BlankMatchesNothing(r, 0);
        forall m | m in home
          ensures home[m] == text.hash("") <==> text.Blank(m)
        {
          if text.Blank(m) {
            BlankIsHead(m);
          }
          if home[m] == text.hash("") {
            BlankClusterIsBlank(r, m);
          }
        }
      } else if Match(r.title).None? {
        NoHomeToLose(clusters, home, text.Fingerprint(r.title), r);
      }
    }

    /** One `assign` in the terms of a run. */
    method AssignNext(r: NewsRecord)
      requires Valid() && text.Sane() && r !in home && !r.isConfirmed
      requires text.NoCollision(Titles(home.Keys) + {r.title})
      modifies this, home.Keys, r
      ensures Valid() && home.Keys == Kept(old(home).Keys, r, text)
      ensures forall m :: m in old(home) && old(m.isConfirmed) ==> m.isConfirmed
    {
      hide Labelled, Indexed, Partition, Text.NoCollision, Text.Sane, Rehoused, Kept, Titles;
      AssignKeeps(r);
      Assign(r);
    }

    /** A run of `assign` over fresh records, as the collector does it. The clusters then hold, truthfully labelled,
        everything but the records with a blank title that a later one has replaced. */
    method AssignAll(records: seq<NewsRecord>)
      requires Valid() && text.Sane() && Distinct(records)
      requires text.NoCollision(Titles(home.Keys + Members(records)))
      requires forall r :: r in records ==> r !in home && !r.isConfirmed
      modifies this, home.Keys, records
      ensures Valid() && home.Keys == Survivors(old(home).Keys, records, text)
      ensures forall m :: m in old(home) && old(m.isConfirmed) ==> m.isConfirmed
    {
      hide Labelled, Indexed, Partition, Text.NoCollision, Text.Sane, Titles, Survivors, Kept;
      ghost var start := home.Keys;
      SurvivorsNone(start, records, text);
      for i := 0 to |records|
        invariant Valid() && home.Keys == Survivors(start, records[..i], text)
        invariant home.Keys <= start + Members(records[..i])
        invariant forall k :: i <= k < |records| ==> records[k] !in home && !records[k].isConfirmed
        invariant forall m :: m in start && old(m.isConfirmed) ==> m.isConfirmed
      {
        FewerTitles(text, home.Keys, start, records, i);
        SurvivorsStep(start, records, i, text);
        AssignNext(records[i]);
      }
      assert records[..|records|] == records;
    }

    /** What `confirmations` reports agrees with the stored fields: the source of the one original, the sources of
        all the others in order, the confirmations stored in every member, and the highest tier. */
    method Confirmations(id: string) returns (report: Option<Report>)
      requires Valid()
      ensures report.None? <==> id !in clusters
      ensures report.Some? ==> Agrees(report.value, clusters[id])
    {
      hide Indexed, Partition, Agrees;
      if id !in clusters {
        return None;
      }
      assert clusters[id] != [] && Labelled(id, clusters[id], text);
      var r := ReportOn(id, clusters[id], text);
      return Some(r);
    }
  }

  // ---------------------------------------------------------------- what a run keeps

  function Titles(records: set<NewsRecord>): set<string> {
    set m | m in records :: m.title
  }

  /** The records held after one more: a blank title takes the place of the blank title before it. */
  function Kept(held: set<NewsRecord>, r: NewsRecord, text: Text): set<NewsRecord> {
    (if text.Blank(r) then set m | m in held && !text.Blank(m) else held) + {r}
  }

  function Survivors(start: set<NewsRecord>, records: seq<NewsRecord>, text: Text): set<NewsRecord> {
    if records == [] then start
    else Kept(Survivors(start, records[..|records| - 1], text), records[|records| - 1], text)
  }

  function Members(records: seq<NewsRecord>): set<NewsRecord> {
    set r | r in records
  }

  lemma SurvivorsNone(start: set<NewsRecord>, records: seq<NewsRecord>, text: Text)
    ensures Survivors(start, records[..0], text) == start
  {
  }

  lemma SurvivorsStep(start: set<NewsRecord>, records: seq<NewsRecord>, i: nat, text: Text)
    requires i < |records|
    ensures var before := Survivors(start, records[..i], text);
            && Survivors(start, records[..i + 1], text) == Kept(before, records[i], text)
            && Kept(before, records[i], text) <= before + {records[i]}
    ensures Members(records[..i + 1]) == Members(records[..i]) + {records[i]}
  {
    assert records[..i + 1][..i] == records[..i];
    assert records[..i + 1] == records[..i] + [records[i]];
  }

  /** Fewer records have no more collisions. */
  lemma FewerTitles(text: Text, held: set<NewsRecord>, start: set<NewsRecord>, records: seq<NewsRecord>, i: nat)
    requires i < |records| && held <= start + Members(records[..i])
    requires text.NoCollision(Titles(start + Members(records)))
    ensures text.NoCollision(Titles(held) + {records[i].title})
  {
    var all := Titles(start + Members(records));
    assert records[i] in Members(records);
    forall t | t in Titles(held) + {records[i].title}
      ensures t in all
    {
      if m :| m in held && m.title == t {
        assert m in start || m in records[..i];
      }
    }
  }

  /** At most one blank title in all, old records included, or no new one. */
  ghost predicate OneBlankAtMost(start: set<NewsRecord>, records: seq<NewsRecord>, text: Text) {
    && (forall i, m :: 0 <= i < |records| && m in start ==> !(text.Blank(records[i]) && text.Blank(m)))
    && (forall i, j :: 0 <= i < j < |records| ==> !(text.Blank(records[i]) && text.Blank(records[j])))
  }

  lemma KeptAllIff(held: set<NewsRecord>, all: set<NewsRecord>, r: NewsRecord, text: Text)
    requires held <= all && r !in all
    ensures Kept(held, r, text) <= all + {r}
    ensures Kept(held, r, text) == all + {r} <==>
            held == all && (text.Blank(r) ==> forall m :: m in all ==> !text.Blank(m))
  {
    hide Text.Blank;
  }

  lemma OneBlankSnoc(start: set<NewsRecord>, front: seq<NewsRecord>, r: NewsRecord, text: Text)
    ensures OneBlankAtMost(start, front + [r], text) <==>
            && OneBlankAtMost(start, front, text)
            && (text.Blank(r) ==> forall m :: m in start + Members(front) ==> !text.Blank(m))
  {
    hide Text.Blank;
    var more := front + [r];
    assert more[|front|] == r;
    assert forall i :: 0 <= i < |front| ==> more[i] == front[i];
    assert forall i :: 0 <= i < |front| ==> front[i] in Members(front);
  }

  /** A run over distinct new records loses none, new or old, exactly when no blank title comes after another. */
  lemma {:induction false} NothingLostIff(start: set<NewsRecord>, records: seq<NewsRecord>, text: Text)
    requires Distinct(records) && forall r :: r in records ==> r !in start
    ensures Survivors(start, records, text) <= start + Members(records)
    ensures Survivors(start, records, text) == start + Members(records) <==> OneBlankAtMost(start, records, text)
  {
    if records != [] {
      hide Text.Blank, Kept, OneBlankAtMost;
      var n := |records| - 1;
      var front, last := records[..n], records[n];
      NothingLostIff(start, front, text);
      assert records == front + [last];
      assert start + Members(records) == (start + Members(front)) + {last};
      KeptAllIff(Survivors(start, front, text), start + Members(front), last, text);
      OneBlankSnoc(start, front, last, text);
    }
  }

  lemma TwoBlanks(first: NewsRecord, second: NewsRecord, text: Text)
    requires text.Sane() && first != second && first.title == second.title == ""
    ensures Survivors({}, [first, second], text) == {second}
  {
    var records := [first, second];
    assert records[..1] == [first] && records[..1][..0] == [];
    assert Survivors({}, records[..1], text) == {first};
  }

  /** The input: of two records without a title the second replaces the first. */
  method SecondBlankReplacesFirst(text: Text) returns (c: NewsClusterer, first: NewsRecord, second: NewsRecord)
    requires text.Sane()
    ensures c.Valid() && first.title == second.title == ""
    ensures c.home.Keys == {second} && first != second
  {
    hide Labelled, Indexed, Partition, Text.Sane, Survivors;
    c := new NewsClusterer(text);
    first := new NewsRecord("", "a.com/1", "a", 0, 2);
    second := new NewsRecord("", "b.com/2", "b", 1, 2);
    TwoBlanks(first, second, text);
    assert c.home.Keys == {};
    c.AssignAll([first, second]);
  }

  datatype Report = Report(original: string, syndicated: seq<string>, independent: nat, highestTier: nat)

  /** The sources of the members that are not marked as original. */
  function Syndicated(members: seq<NewsRecord>): seq<string>
    reads members
  {
    if members == [] then []
    else
      var n := |members| - 1;
      Syndicated(members[..n]) + if members[n].isOriginal then [] else [members[n].source]
  }

  ghost predicate Agrees(report: Report, members: seq<NewsRecord>)
    reads members
  {
    && (exists k :: 0 <= k < |members| && members[k].isOriginal)
    && (forall k :: 0 <= k < |members| && members[k].isOriginal ==> members[k].source == report.original)
    && report.syndicated == Syndicated(members)
    && (forall k :: 0 <= k < |members| ==> members[k].confirmations == report.independent)
    && (exists k :: 0 <= k < |members| && members[k].tier == report.highestTier)
    && (forall k :: 0 <= k < |members| ==> members[k].tier >= report.highestTier)
  }

  method HighestTier(members: seq<NewsRecord>) returns (highest: nat)
    requires members != []
    ensures exists k :: 0 <= k < |members| && members[k].tier == highest
    ensures forall k :: 0 <= k < |members| ==> members[k].tier >= highest
  {
    highest := members[0].tier;
    for k := 0 to |members|
      invariant exists i :: 0 <= i < |members| && members[i].tier == highest
      invariant forall i :: 0 <= i < k ==> members[i].tier >= highest
    {
      if members[k].tier < highest {
        highest := members[k].tier;
      }
    }
  }

  method SourcesBut(members: seq<NewsRecord>, earliest: nat) returns (sources: seq<string>)
    requires forall k :: 0 <= k < |members| ==> (members[k].isOriginal <==> k == earliest)
    ensures sources == Syndicated(members)
  {
    sources := [];
    for k := 0 to |members|
      invariant sources == Syndicated(members[..k])
    {
      assert members[..k + 1][..k] == members[..k];
      if k != earliest {
        sources := sources + [members[k].source];
      }
    }
    assert members[..|members|] == members;
  }

  method ReportOn(ghost id: string, members: seq<NewsRecord>, text: Text) returns (report: Report)
    requires Labelled(id, members, text)
    ensures Agrees(report, members)
  {
    hide Domains, Syndicated;
    var earliest := Earliest(members);
    assert members[earliest].isOriginal;
    DomainsNonEmpty(members, text);
    var syndicated := SourcesBut(members, earliest);
    var highest := HighestTier(members);
    report := Report(members[earliest].source, syndicated, |Domains(members, text)| - 1, highest);
  }

  lemma LabelledDistinct(id: string, members: seq<NewsRecord>, text: Text)
    requires Labelled(id, members, text)
    ensures Distinct(members) && members != []
  {
  }

  lemma AloneIsLabelled(id: string, r: NewsRecord, text: Text)
    requires r.clusterId == Some(id) && r.isOriginal && r.confirmations == 0
    requires r.isConfirmed <==> r.tier == 1
    ensures Labelled(id, [r], text)
  {
    assert Domains([r], text) == {text.domain(r.url)};
  }

  /** A record confirmed in a cluster is still entitled to it when the cluster grows. */
  lemma ConfirmedStays(id: string, members: seq<NewsRecord>, text: Text)
    requires |members| >= 2 && Labelled(id, members[..|members| - 1], text)
    requires !members[|members| - 1].isConfirmed
    ensures |Domains(members, text)| >= 1
    ensures forall i :: 0 <= i < |members| ==>
              members[i].isConfirmed ==> |Domains(members, text)| >= 2 || members[i].tier == 1
  {
    var front := members[..|members| - 1];
    DomainsNonEmpty(members, text);
    DomainsGrow(front, members[|members| - 1], text);
    assert members == front + [members[|members| - 1]];
    forall i | 0 <= i < |front|
      ensures members[i].isConfirmed ==> |Domains(members, text)| >= 2 || members[i].tier == 1
    {
      assert front[i] == members[i];
    }
  }
}
