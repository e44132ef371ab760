/** The packing history view: the search filter over the stored records
    (listed newest first), the "Total Packs", "AI Analyzed" and "Latest
    Pack" figures, and the file name of a downloaded video. `None` stands
    for the list while the live query has not delivered yet. */
module Dashboard {
  import opened Types
  import opened Text

  /** `r.orderId.toLowerCase().includes(term.toLowerCase())`. */
  predicate MatchesSearch(r: PackingRecord, term: string) {
    Includes(Lower(r.orderId), Lower(term))
  }

  /** The records that match the search term, in list order. */
  function Matching(rs: seq<PackingRecord>, term: string): (out: seq<PackingRecord>)
    ensures |out| <= |rs|
    ensures forall r :: r in out <==> r in rs && MatchesSearch(r, term)
    ensures forall r :: multiset(out)[r] == (if MatchesSearch(r, term) then multiset(rs)[r] else 0)
  {
    if rs == [] then []
    else
      assert rs == [rs[0]] + rs[1..];
      (if MatchesSearch(rs[0], term) then [rs[0]] else []) + Matching(rs[1..], term)
  }

  /** `filteredRecords`: undefined until the list is there. */
  function FilteredRecords(records: Option<seq<PackingRecord>>, term: string): (r: Option<seq<PackingRecord>>)
    ensures r.None? <==> records.None?
  {
    if records.None? then None else Some(Matching(records.value, term))
  }

  /** `a` is `b` with some elements left out, the rest in the same order. */
  predicate Subsequence<T(==)>(a: seq<T>, b: seq<T>)
    decreases |b|
  {
    if a == [] then true
    else if b == [] then false
    else if a[0] == b[0] then Subsequence(a[1..], b[1..])
    else Subsequence(a, b[1..])
  }

  /** Filtering only drops records: what is left keeps its order. */
  lemma {:induction false} MatchingIsSubsequence(rs: seq<PackingRecord>, term: string)
    ensures Subsequence(Matching(rs, term), rs)
    decreases |rs|
  {
    if rs != [] {
      MatchingIsSubsequence(rs[1..], term);
      if MatchesSearch(rs[0], term) {
        assert Matching(rs, term)[1..] == Matching(rs[1..], term);
      } else {
        assert Matching(rs, term) == Matching(rs[1..], term);
      }
    }
  }

  lemma {:induction false} SubsequenceMembers<T>(a: seq<T>, b: seq<T>)
    requires Subsequence(a, b)
    ensures forall x :: x in a ==> x in b
    decreases |b|
  {
    if a != [] {
      if a[0] == b[0] {
        SubsequenceMembers(a[1..], b[1..]);
        assert forall x :: x in a ==> x == a[0] || x in a[1..];
      } else {
        SubsequenceMembers(a, b[1..]);
      }
    }
  }

  /** The list order of the history: newest timestamp first. */
  ghost predicate NewestFirst(rs: seq<PackingRecord>) {
    forall i, j :: 0 <= i < j < |rs| ==> rs[i].timestamp >= rs[j].timestamp
  }

  /** A subsequence of a newest-first list is newest first. */
  lemma {:induction false} SubsequenceKeepsNewestFirst(a: seq<PackingRecord>, b: seq<PackingRecord>)
    requires Subsequence(a, b) && NewestFirst(b)
    ensures NewestFirst(a)
    decreases |b|
  {
    if a != [] {
      assert NewestFirst(b[1..]) by {
        assert forall i :: 0 <= i < |b[1..]| ==> b[1..][i] == b[i + 1];
      }
      if a[0] == b[0] {
        SubsequenceKeepsNewestFirst(a[1..], b[1..]);
        SubsequenceMembers(a[1..], b[1..]);
        forall i, j | 0 <= i < j < |a|
          ensures a[i].timestamp >= a[j].timestamp
        {
          if i == 0 {
            assert a[j] == a[1..][j - 1];
            assert a[j] in b[1..];
          } else {
            assert a[i] == a[1..][i - 1] && a[j] == a[1..][j - 1];
          }
        }
      } else {
        SubsequenceKeepsNewestFirst(a, b[1..]);
      }
    }
  }

  /** The filtered list of a newest-first list is newest first. */
  lemma FilterKeepsNewestFirst(rs: seq<PackingRecord>, term: string)
    requires NewestFirst(rs)
    ensures NewestFirst(Matching(rs, term))
  {
    MatchingIsSubsequence(rs, term);
    SubsequenceKeepsNewestFirst(Matching(rs, term), rs);
  }

  /** An empty search keeps every record. */
  lemma {:induction false} EmptySearchKeepsAll(rs: seq<PackingRecord>)
    ensures Matching(rs, "") == rs
    decreases |rs|
  {
    if rs != [] {
      IncludesEmpty(Lower(rs[0].orderId));
      assert Lower("") == "";
      EmptySearchKeepsAll(rs[1..]);
    }
  }

  /** The records with a non-empty AI note, in list order. */
  function WithNote(rs: seq<PackingRecord>): (out: seq<PackingRecord>)
    ensures |out| <= |rs|
    ensures forall r :: r in out <==> r in rs && Truthy(r.aiAnalysis)
    ensures forall r :: multiset(out)[r] == (if Truthy(r.aiAnalysis) then multiset(rs)[r] else 0)
  {
    if rs == [] then []
    else
      assert rs == [rs[0]] + rs[1..];
      (if Truthy(rs[0].aiAnalysis) then [rs[0]] else []) + WithNote(rs[1..])
  }

  /** The positions in the list that hold a record with a note. */
  ghost function NotedPositions(rs: seq<PackingRecord>): set<nat> {
    set i: nat | i < |rs| && Truthy(rs[i].aiAnalysis)
  }

  lemma {:induction false} WithNoteSnoc(rs: seq<PackingRecord>, x: PackingRecord)
    ensures WithNote(rs + [x]) == WithNote(rs) + (if Truthy(x.aiAnalysis) then [x] else [])
    decreases |rs|
  {
    if rs == [] {
      assert rs + [x] == [x];
    } else {
      ConsSnoc(rs, x);
      WithNoteSnoc(rs[1..], x);
      WithNoteCons(rs + [x]);
      WithNoteCons(rs);
      Regroup(if Truthy(rs[0].aiAnalysis) then [rs[0]] else [], WithNote(rs[1..]),
              if Truthy(x.aiAnalysis) then [x] else []);
    }
  }

  lemma WithNoteCons(rs: seq<PackingRecord>)
    requires rs != []
    ensures WithNote(rs) == (if Truthy(rs[0].aiAnalysis) then [rs[0]] else []) + WithNote(rs[1..])
  {
  }

  lemma Regroup(a: seq<PackingRecord>, b: seq<PackingRecord>, c: seq<PackingRecord>)
    ensures a + (b + c) == (a + b) + c
  {
  }

  lemma ConsSnoc(rs: seq<PackingRecord>, x: PackingRecord)
    requires rs != []
    ensures (rs + [x])[0] == rs[0] && (rs + [x])[1..] == rs[1..] + [x]
  {
  }

  lemma NotedPositionsSnoc(init: seq<PackingRecord>, x: PackingRecord)
    ensures NotedPositions(init + [x]) == NotedPositions(init) + (if Truthy(x.aiAnalysis) then {|init|} else {})
    ensures |init| !in NotedPositions(init)
  {
    assert forall i :: 0 <= i < |init| ==> (init + [x])[i] == init[i];
  }

  lemma LengthSnoc(init: seq<PackingRecord>, x: PackingRecord)
    ensures |WithNote(init + [x])| == |WithNote(init)| + (if Truthy(x.aiAnalysis) then 1 else 0)
  {
    WithNoteSnoc(init, x);
  }

  lemma PositionsSnoc(init: seq<PackingRecord>, x: PackingRecord)
    ensures |NotedPositions(init + [x])| == |NotedPositions(init)| + (if Truthy(x.aiAnalysis) then 1 else 0)
  {
    NotedPositionsSnoc(init, x);
  }

  /** The analysed records are as many as the positions holding a note. */
  lemma {:induction false} WithNoteCountsNoted(rs: seq<PackingRecord>)
    ensures |WithNote(rs)| == |NotedPositions(rs)|
    decreases |rs|
  {
    if rs != [] {
      var init, x := rs[..|rs| - 1], rs[|rs| - 1];
      assert rs == init + [x];
      WithNoteCountsNoted(init);
      LengthSnoc(init, x);
      PositionsSnoc(init, x);
    }
  }

  /** "Total Packs": `records?.length || 0`. */
  function TotalPacks(records: Option<seq<PackingRecord>>): (n: nat)
    ensures n == 0 <==> records.None? || records.value == []
    ensures records.Some? ==> n == |FilteredRecords(records, "").value|
  {
    if records.None? then 0
    else
      EmptySearchKeepsAll(records.value);
      |records.value|
  }

  /** "AI Analyzed": `records?.filter(r => r.aiAnalysis).length || 0`. */
  function AnalyzedPacks(records: Option<seq<PackingRecord>>): (n: nat)
    ensures n <= TotalPacks(records)
    ensures records.Some? ==> n == |NotedPositions(records.value)|
  {
    if records.None? then 0
    else
      WithNoteCountsNoted(records.value);
      |WithNote(records.value)|
  }

  /** The analysed count never exceeds the total, and reaches it exactly
      when every record has a note. */
  lemma {:induction false} AnalyzedAtMostTotal(records: Option<seq<PackingRecord>>)
    ensures AnalyzedPacks(records) <= TotalPacks(records)
    ensures records.Some? ==>
      (AnalyzedPacks(records) == TotalPacks(records) <==>
       forall i :: 0 <= i < |records.value| ==> Truthy(records.value[i].aiAnalysis))
  {
    if records.Some? {
      AllNotedIff(records.value);
    }
  }

  lemma AllNotedIff(rs: seq<PackingRecord>)
    ensures |WithNote(rs)| == |rs| <==> forall i :: 0 <= i < |rs| ==> Truthy(rs[i].aiAnalysis)
  {
    if forall i :: 0 <= i < |rs| ==> Truthy(rs[i].aiAnalysis) {
      AllNotedKeepsAll(rs);
    } else {
      var i :| 0 <= i < |rs| && !Truthy(rs[i].aiAnalysis);
      UnnotedShrinks(rs, i);
    }
  }

  /** When every record has a note, the filter keeps the whole list. */
  lemma {:induction false} AllNotedKeepsAll(rs: seq<PackingRecord>)
    requires forall i :: 0 <= i < |rs| ==> Truthy(rs[i].aiAnalysis)
    ensures WithNote(rs) == rs
    decreases |rs|
  {
    if rs != [] {
      assert forall i :: 0 <= i < |rs[1..]| ==> rs[1..][i] == rs[i + 1];
      AllNotedKeepsAll(rs[1..]);
      WithNoteCons(rs);
      assert rs == [rs[0]] + rs[1..];
    }
  }

  /** A record without a note makes the analysed list shorter. */
  lemma {:induction false} UnnotedShrinks(rs: seq<PackingRecord>, i: nat)
    requires i < |rs| && !Truthy(rs[i].aiAnalysis)
    ensures |WithNote(rs)| < |rs|
    decreases |rs|
  {
    WithNoteCons(rs);
    if i > 0 {
      assert rs[1..][i - 1] == rs[i];
      UnnotedShrinks(rs[1..], i - 1);
    }
  }

  /** "Latest Pack": the first record's timestamp, or nothing (`--:--`)
      while the list is missing or empty. */
  function LatestPack(records: Option<seq<PackingRecord>>): (t: Option<int>)
    ensures t.Some? <==> records.Some? && records.value != []
  {
    if records.Some? && |records.value| > 0 then Some(records.value[0].timestamp) else None
  }

  /** On a newest-first list the figure is the greatest timestamp. */
  lemma LatestIsNewest(rs: seq<PackingRecord>)
    requires NewestFirst(rs) && rs != []
    ensures LatestPack(Some(rs)) == Some(rs[0].timestamp)
    ensures forall r :: r in rs ==> r.timestamp <= LatestPack(Some(rs)).value
  {
    forall r | r in rs
      ensures r.timestamp <= rs[0].timestamp
    {
      var j :| 0 <= j < |rs| && rs[j] == r;
      if j > 0 {
        assert rs[0].timestamp >= rs[j].timestamp;
      }
    }
  }

  /** The name a downloaded video is saved under. */
  function DownloadName(orderId: string): string {
    "order-" + orderId + ".webm"
  }

  /** The order id a download name was made from, if it has that shape. */
  function OrderIdOfDownloadName(name: string): (id: Option<string>)
    ensures id.Some? ==> DownloadName(id.value) == name
  {
    if |name| >= 11 && name[..6] == "order-" && name[|name| - 5..] == ".webm" then
      var id := name[6..|name| - 5];
      assert name == name[..6] + id + name[|name| - 5..];
      Some(id)
    else None
  }

  /** Every download name gives back the order id it was made from. */
  lemma DownloadNameRoundTrip(orderId: string)
    ensures OrderIdOfDownloadName(DownloadName(orderId)) == Some(orderId)
  {
    var name := DownloadName(orderId);
    assert name[..6] == "order-";
    assert name[|name| - 5..] == ".webm";
    assert name[6..|name| - 5] == orderId;
  }

  /** The link `downloadVideo` clicks. */
  datatype Anchor = Anchor(href: string, download: string)

  /** `downloadVideo`: only with an object URL and a selected record. */
  function DownloadVideo(videoUrl: Option<string>, selected: Option<PackingRecord>): (a: Option<Anchor>)
    ensures a.Some? <==> Truthy(videoUrl) && selected.Some?
    ensures a.Some? ==> a.value.href == videoUrl.value
    ensures a.Some? ==> OrderIdOfDownloadName(a.value.download) == Some(selected.value.orderId)
  {
    if Truthy(videoUrl) && selected.Some? then
      DownloadNameRoundTrip(selected.value.orderId);
      Some(Anchor(videoUrl.value, DownloadName(selected.value.orderId)))
    else None
  }
}
