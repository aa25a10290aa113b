/** The program guide and its search (`ProgramGuide.programs`, `.search`
    and `_pick_best`), over programs whose fields the validators have
    already coerced: `ChanNum` as the integer `int()` makes of it, and
    `VideoProps` as the integer bitmask `decode` is given. */
module Guide {

  import opened Results
  import Text
  import Seqs
  import Props

  datatype Program = Program(title: string, startTime: string, endTime: string, videoProps: int)

  datatype Channel = Channel(chanNum: int, programs: seq<Program>)

  /** A program as the guide yields it: with the channel it belongs to
      (`pr.channel`), of which only the channel number is used. */
  datatype Listing = Listing(program: Program, chanNum: int)

  /** `(pr.Title, pr.StartTime, pr.EndTime)`, the key duplicates share. */
  datatype Key = Key(title: string, startTime: string, endTime: string)

  /** `Channel.programs`. */
  function ChannelListings(ch: Channel): seq<Listing>
  {
    seq(|ch.programs|, j requires 0 <= j < |ch.programs| => Listing(ch.programs[j], ch.chanNum))
  }

  /** `ProgramGuide.programs`: each channel's programs, channel after
      channel. */
  function Listings(channels: seq<Channel>): seq<Listing>
  {
    Seqs.Flatten(seq(|channels|, i requires 0 <= i < |channels| => ChannelListings(channels[i])))
  }

  /** A listing comes out of the guide exactly when it is a program of one
      of its channels paired with that channel's number. */
  lemma ListingsMember(channels: seq<Channel>, l: Listing)
    ensures l in Listings(channels) <==>
      exists i :: 0 <= i < |channels| && l.chanNum == channels[i].chanNum && l.program in channels[i].programs
  {
    var lists := seq(|channels|, i requires 0 <= i < |channels| => ChannelListings(channels[i]));
    Seqs.FlattenMember(lists, l);
    if l in Listings(channels) {
      var i :| 0 <= i < |lists| && l in lists[i];
      var j :| 0 <= j < |channels[i].programs| && ChannelListings(channels[i])[j] == l;
      assert channels[i].programs[j] == l.program;
    }
    if exists i :: 0 <= i < |channels| && l.chanNum == channels[i].chanNum && l.program in channels[i].programs {
      var i :| 0 <= i < |channels| && l.chanNum == channels[i].chanNum && l.program in channels[i].programs;
      var j :| 0 <= j < |channels[i].programs| && channels[i].programs[j] == l.program;
      assert ChannelListings(channels[i])[j] == l;
      assert l in lists[i];
    }
  }

  function KeyOf(l: Listing): Key
  {
    Key(l.program.title, l.program.startTime, l.program.endTime)
  }

  /** `term.lower() in pr.Title.lower()`. */
  predicate Matches(term: string, l: Listing)
  {
    Text.Contains(Text.Lower(l.program.title), Text.Lower(term))
  }

  /** `'hdtv' in pr.video_props_list`. */
  predicate IsHd(l: Listing)
  {
    "hdtv" in Props.VideoPropsList(l.program.videoProps)
  }

  /** A listing is high-definition exactly when its video properties have
      bit 0 set. */
  lemma IsHdOdd(l: Listing)
    ensures IsHd(l) <==> l.program.videoProps % 2 == 1
  {
    Props.HdtvIffOdd(l.program.videoProps);
  }

  /** The order `key=lambda pr: int(pr.channel.ChanNum)` sorts by. */
  predicate ChanLe(a: Listing, b: Listing)
  {
    a.chanNum <= b.chanNum
  }

  /** The order `key=lambda pr: pr.StartTime` sorts by: string comparison. */
  predicate StartLe(a: Listing, b: Listing)
  {
    Text.LexLe(a.program.startTime, b.program.startTime)
  }

  lemma ChanLeTotalPreorder()
    ensures Seqs.TotalPreorder(ChanLe)
  {
  }

  lemma StartLeTotalPreorder()
    ensures Seqs.TotalPreorder(StartLe)
  {
    forall a: Listing, b: Listing
      ensures StartLe(a, b) || StartLe(b, a)
    {
      Text.LexLeTotal(a.program.startTime, b.program.startTime);
    }
    forall a: Listing, b: Listing, c: Listing | StartLe(a, b) && StartLe(b, c)
      ensures StartLe(a, c)
    {
      Text.LexLeTransitive(a.program.startTime, b.program.startTime, c.program.startTime);
    }
  }

  /** The first element of `s` satisfying `p`, if any. */
  function FirstWhere<T>(s: seq<T>, p: T -> bool): (r: Option<T>)
  {
    if |s| == 0 then None
    else if p(s[0]) then Some(s[0])
    else FirstWhere(s[1..], p)
  }

  /** The first element satisfying `p` is the head of the filtered
      sequence. */
  lemma {:induction false} FirstWhereFilter<T>(s: seq<T>, p: T -> bool)
    ensures FirstWhere(s, p) == if |Seqs.Filter(s, p)| == 0 then None else Some(Seqs.Filter(s, p)[0])
  {
    if |s| > 0 {
      FirstWhereFilter(s[1..], p);
      Seqs.FilterCons(s[0], s[1..], p);
      assert [s[0]] + s[1..] == s;
    }
  }

  /** `_pick_best(dups)`: in channel-number order, the first high-definition
      duplicate, else the first duplicate. */
  function PickBest(dups: seq<Listing>): Listing
    requires |dups| > 0
  {
    var ordered := Seqs.Sort(dups, ChanLe);
    match FirstWhere(ordered, IsHd)
    case Some(l) => l
    case None => ordered[0]
  }

  /** `_pick_best` keeps the high-definition duplicate with the lowest
      channel number, ties going to the earliest, when there is one, and
      otherwise the duplicate with the lowest channel number. */
  lemma PickBestIsFirstMin(dups: seq<Listing>)
    requires |dups| > 0
    ensures var hd := Seqs.Filter(dups, IsHd);
      PickBest(dups) == if |hd| > 0 then Seqs.FirstMin(hd, ChanLe) else Seqs.FirstMin(dups, ChanLe)
  {
    ChanLeTotalPreorder();
    var ordered := Seqs.Sort(dups, ChanLe);
    var hd := Seqs.Filter(dups, IsHd);
    FirstWhereFilter(ordered, IsHd);
    Seqs.FilterSort(dups, ChanLe, IsHd);
    Seqs.SortHead(dups, ChanLe);
    if |hd| > 0 {
      Seqs.SortHead(hd, ChanLe);
    }
  }

  /** The kept duplicate is one of the duplicates; it is high-definition
      exactly when some duplicate is, and no duplicate of the same
      definition class has a lower channel number. */
  lemma PickBestSpec(dups: seq<Listing>)
    requires |dups| > 0
    ensures PickBest(dups) in dups
    ensures IsHd(PickBest(dups)) <==> exists i :: 0 <= i < |dups| && IsHd(dups[i])
    ensures forall i :: 0 <= i < |dups| && (IsHd(dups[i]) || !IsHd(PickBest(dups))) ==>
      PickBest(dups).chanNum <= dups[i].chanNum
  {
    PickBestIsFirstMin(dups);
    ChanLeTotalPreorder();
    var hd := Seqs.Filter(dups, IsHd);
    Seqs.FilterMember(dups, IsHd);
    if |hd| > 0 {
      Seqs.FirstMinIsLeastFirst(hd, ChanLe);
      var best := Seqs.FirstMin(hd, ChanLe);
      forall i | 0 <= i < |dups| && IsHd(dups[i])
        ensures best.chanNum <= dups[i].chanNum
      {
        var j :| 0 <= j < |hd| && hd[j] == dups[i];
      }
    } else {
      Seqs.FirstMinIsLeastFirst(dups, ChanLe);
      forall i | 0 <= i < |dups|
        ensures !IsHd(dups[i])
      {
        if IsHd(dups[i]) {
          assert false;
        }
      }
    }
  }

  /** The keys of `keyed` in insertion order: each key at its first
      occurrence. */
  function KeysInOrder(s: seq<Listing>): seq<Key>
  {
    if |s| == 0 then []
    else
      var ks := KeysInOrder(s[..|s| - 1]);
      var k := KeyOf(s[|s| - 1]);
      if k in ks then ks else ks + [k]
  }

  /** The keys are distinct, and are exactly the keys of the listings. */
  lemma {:induction false} KeysInOrderSpec(s: seq<Listing>)
    ensures forall i, j :: 0 <= i < j < |KeysInOrder(s)| ==> KeysInOrder(s)[i] != KeysInOrder(s)[j]
    ensures forall k :: k in KeysInOrder(s) <==> exists i :: 0 <= i < |s| && KeyOf(s[i]) == k
  {
    if |s| > 0 {
      var init := s[..|s| - 1];
      KeysInOrderSpec(init);
      forall k
        ensures k in KeysInOrder(s) <==> exists i :: 0 <= i < |s| && KeyOf(s[i]) == k
      {
        if k in KeysInOrder(init) {
          var i :| 0 <= i < |init| && KeyOf(init[i]) == k;
          assert KeyOf(s[i]) == k;
        }
        if exists i :: 0 <= i < |s| && KeyOf(s[i]) == k {
          var i :| 0 <= i < |s| && KeyOf(s[i]) == k;
          if i < |s| - 1 {
            assert KeyOf(init[i]) == k;
          }
        }
      }
    }
  }

  /** `keyed[k]`: the listings with key `k`, in the order appended. */
  function Group(s: seq<Listing>, k: Key): seq<Listing>
  {
    Seqs.Filter(s, l => KeyOf(l) == k)
  }

  /** A key of the listings has a non-empty group, all of whose members
      have that key. */
  lemma GroupSpec(s: seq<Listing>, k: Key)
    ensures forall i :: 0 <= i < |Group(s, k)| ==> Group(s, k)[i] in s && KeyOf(Group(s, k)[i]) == k
    ensures k in KeysInOrder(s) ==> |Group(s, k)| > 0
  {
    Seqs.FilterMember(s, l => KeyOf(l) == k);
    KeysInOrderSpec(s);
    if k in KeysInOrder(s) {
      var i :| 0 <= i < |s| && KeyOf(s[i]) == k;
      assert s[i] in Group(s, k);
    }
  }

  /** `_pick_best(keyed[k])`. */
  function BestOf(s: seq<Listing>, k: Key): Listing
    requires k in KeysInOrder(s)
  {
    GroupSpec(s, k);
    PickBest(Group(s, k))
  }

  /** The de-duplicated matches: one pick per key, in key order. */
  function Dedup(s: seq<Listing>): seq<Listing>
  {
    var ks := KeysInOrder(s);
    seq(|ks|, i requires 0 <= i < |ks| => BestOf(s, ks[i]))
  }

  /** No two listings share a key. */
  ghost predicate DistinctKeys(s: seq<Listing>)
  {
    forall i, j :: 0 <= i < j < |s| ==> KeyOf(s[i]) != KeyOf(s[j])
  }

  /** The `i`-th pick is the best of the `i`-th key's group. */
  lemma DedupAt(s: seq<Listing>, i: int)
    requires 0 <= i < |Dedup(s)|
    ensures Dedup(s)[i] in s
    ensures KeyOf(Dedup(s)[i]) == KeysInOrder(s)[i]
    ensures |Group(s, KeysInOrder(s)[i])| > 0 && Dedup(s)[i] == PickBest(Group(s, KeysInOrder(s)[i]))
  {
    var k := KeysInOrder(s)[i];
    var g := Group(s, k);
    GroupSpec(s, k);
    PickBestSpec(g);
    var j :| 0 <= j < |g| && g[j] == Dedup(s)[i];
  }

  /** De-duplication keeps one listing per key of the matches, each the
      best of its group, and nothing else. */
  lemma DedupSpec(s: seq<Listing>)
    ensures forall i :: 0 <= i < |Dedup(s)| ==>
      Dedup(s)[i] in s &&
      |Group(s, KeyOf(Dedup(s)[i]))| > 0 &&
      Dedup(s)[i] == PickBest(Group(s, KeyOf(Dedup(s)[i])))
    ensures DistinctKeys(Dedup(s))
    ensures forall i :: 0 <= i < |s| ==> exists j :: 0 <= j < |Dedup(s)| && KeyOf(Dedup(s)[j]) == KeyOf(s[i])
  {
    var ks := KeysInOrder(s);
    var d := Dedup(s);
    KeysInOrderSpec(s);
    forall i | 0 <= i < |d|
      ensures d[i] in s && |Group(s, KeyOf(d[i]))| > 0 && d[i] == PickBest(Group(s, KeyOf(d[i])))
    {
      DedupAt(s, i);
    }
    forall i, j | 0 <= i < j < |d|
      ensures KeyOf(d[i]) != KeyOf(d[j])
    {
      DedupAt(s, i);
      DedupAt(s, j);
    }
    forall i | 0 <= i < |s|
      ensures exists j :: 0 <= j < |d| && KeyOf(d[j]) == KeyOf(s[i])
    {
      assert KeyOf(s[i]) in ks;
      var j :| 0 <= j < |ks| && ks[j] == KeyOf(s[i]);
      DedupAt(s, j);
    }
  }

  /** Reordering a list without shared keys leaves none shared. */
  lemma DistinctKeysPermute(a: seq<Listing>, b: seq<Listing>)
    requires multiset(a) == multiset(b)
    requires DistinctKeys(a)
    ensures DistinctKeys(b)
  {
    forall i, j | 0 <= i < j < |b|
      ensures KeyOf(b[i]) != KeyOf(b[j])
    {
      if KeyOf(b[i]) == KeyOf(b[j]) {
        assert b[i] in multiset(a) && b[j] in multiset(a);
        var p :| 0 <= p < |a| && a[p] == b[i];
        var q :| 0 <= q < |a| && a[q] == b[j];
        assert p == q;
        Seqs.TwoPositions(b, i, j);
        Seqs.TwiceHasTwoPositions(a, b[i]);
        assert false;
      }
    }
  }

  /** `found[:limit]`: a Python slice, counting from the end for a negative
      bound. */
  function PrefixTo<T>(s: seq<T>, n: int): (r: seq<T>)
  {
    if n >= 0 then (if n <= |s| then s[..n] else s)
    else (if |s| + n >= 0 then s[..|s| + n] else [])
  }

  /** A slice bound cuts the sequence to a prefix: all of it when the bound
      reaches past the end, the first `n` elements for a positive `n`, all
      but the last `-n` for a negative `n`. */
  lemma PrefixToSpec<T>(s: seq<T>, n: int)
    ensures PrefixTo(s, n) <= s
    ensures n >= |s| ==> PrefixTo(s, n) == s
    ensures 0 <= n <= |s| ==> |PrefixTo(s, n)| == n
    ensures n < 0 ==> |PrefixTo(s, n)| == (if |s| + n >= 0 then |s| + n else 0)
  {
  }

  /** `if limit: found = found[:limit]`: a missing or zero limit keeps all. */
  function Truncate(found: seq<Listing>, limit: Option<int>): seq<Listing>
  {
    if limit.None? || limit.value == 0 then found else PrefixTo(found, limit.value)
  }

  /** The programs whose title contains the term, ignoring case, in guide
      order. */
  function MatchesOf(channels: seq<Channel>, term: string): seq<Listing>
  {
    Seqs.Filter(Listings(channels), l => Matches(term, l))
  }

  /** The matches are exactly the listings of the guide whose title contains
      the term, each as often as the guide lists it, in guide order. */
  lemma MatchesOfSpec(channels: seq<Channel>, term: string)
    ensures forall l :: l in MatchesOf(channels, term) <==> l in Listings(channels) && Matches(term, l)
    ensures forall l :: multiset(MatchesOf(channels, term))[l] ==
                        if Matches(term, l) then multiset(Listings(channels))[l] else 0
    ensures Seqs.IsSubsequence(MatchesOf(channels, term), Listings(channels))
  {
    var all := Listings(channels);
    var p := l => Matches(term, l);
    Seqs.FilterMember(all, p);
    Seqs.FilterMultiset(all, p);
    Seqs.FilterIsSubsequence(all, p);
    forall l | l in all && Matches(term, l)
      ensures l in MatchesOf(channels, term)
    {
      var i :| 0 <= i < |all| && all[i] == l;
    }
  }

  /** `ProgramGuide.search(term, remove_dups, limit)`. */
  function Search(channels: seq<Channel>, term: string, removeDups: bool, limit: Option<int>): seq<Listing>
  {
    var matches := MatchesOf(channels, term);
    var kept := if removeDups then Dedup(matches) else matches;
    Truncate(Seqs.Sort(kept, StartLe), limit)
  }

  /** Sorting by start time and cutting to the limit gives a sorted prefix
      of the sorted list, drawn from the list. */
  lemma TruncateSorted(kept: seq<Listing>, limit: Option<int>)
    ensures var r := Truncate(Seqs.Sort(kept, StartLe), limit);
      r <= Seqs.Sort(kept, StartLe) && Seqs.Sorted(r, StartLe) &&
      forall i :: 0 <= i < |r| ==> r[i] in kept
  {
    var sorted := Seqs.Sort(kept, StartLe);
    var r := Truncate(sorted, limit);
    Seqs.SortPermutes(kept, StartLe);
    StartLeTotalPreorder();
    Seqs.SortSorted(kept, StartLe);
    if limit.Some? && limit.value != 0 {
      PrefixToSpec(sorted, limit.value);
    }
    forall i | 0 <= i < |r|
      ensures r[i] in kept
    {
      assert r[i] == sorted[i];
      assert r[i] in multiset(kept);
    }
  }

  /** Every result is a program of the guide whose title contains the term,
      and the results are in start-time order. */
  lemma SearchMatchesSorted(channels: seq<Channel>, term: string, removeDups: bool, limit: Option<int>)
    ensures forall i :: 0 <= i < |Search(channels, term, removeDups, limit)| ==>
      var l := Search(channels, term, removeDups, limit)[i];
      l in Listings(channels) && Matches(term, l)
    ensures Seqs.Sorted(Search(channels, term, removeDups, limit), StartLe)
  {
    var matches := MatchesOf(channels, term);
    var kept := if removeDups then Dedup(matches) else matches;
    var r := Search(channels, term, removeDups, limit);
    MatchesOfSpec(channels, term);
    DedupSpec(matches);
    TruncateSorted(kept, limit);
    forall i | 0 <= i < |r|
      ensures r[i] in matches
    {
      assert r[i] in kept;
    }
  }

  /** With `remove_dups`, no two results share a (title, start, end) key,
      and each is the pick of `_pick_best` among the matches with its key. */
  lemma SearchDedups(channels: seq<Channel>, term: string, limit: Option<int>)
    ensures DistinctKeys(Search(channels, term, true, limit))
    ensures var r := Search(channels, term, true, limit);
      var matches := MatchesOf(channels, term);
      forall i :: 0 <= i < |r| ==>
        |Group(matches, KeyOf(r[i]))| > 0 && r[i] == PickBest(Group(matches, KeyOf(r[i])))
  {
    var matches := MatchesOf(channels, term);
    var kept := Dedup(matches);
    var sorted := Seqs.Sort(kept, StartLe);
    var r := Search(channels, term, true, limit);
    DedupSpec(matches);
    Seqs.SortPermutes(kept, StartLe);
    DistinctKeysPermute(kept, sorted);
    TruncateSorted(kept, limit);
    forall i | 0 <= i < |r|
      ensures |Group(matches, KeyOf(r[i]))| > 0 && r[i] == PickBest(Group(matches, KeyOf(r[i])))
    {
      var j :| 0 <= j < |kept| && kept[j] == r[i];
    }
  }

  /** Without a limit, the results are all the kept matches: with
      `remove_dups` one per key of the matches, without it every match. */
  lemma SearchComplete(channels: seq<Channel>, term: string, removeDups: bool, limit: Option<int>)
    requires limit.None? || limit.value == 0
    ensures !removeDups ==>
      multiset(Search(channels, term, removeDups, limit)) == multiset(MatchesOf(channels, term))
    ensures removeDups ==>
      forall m :: m in MatchesOf(channels, term) ==>
        exists i :: 0 <= i < |Search(channels, term, removeDups, limit)| &&
          KeyOf(Search(channels, term, removeDups, limit)[i]) == KeyOf(m)
  {
    var matches := MatchesOf(channels, term);
    var kept := if removeDups then Dedup(matches) else matches;
    Seqs.SortPermutes(kept, StartLe);
    if removeDups {
      DedupSpec(matches);
      var r := Search(channels, term, removeDups, limit);
      forall m | m in matches
        ensures exists i :: 0 <= i < |r| && KeyOf(r[i]) == KeyOf(m)
      {
        var a :| 0 <= a < |matches| && matches[a] == m;
        var j :| 0 <= j < |kept| && KeyOf(kept[j]) == KeyOf(matches[a]);
        assert kept[j] in multiset(r);
        var i :| 0 <= i < |r| && r[i] == kept[j];
      }
    }
  }

  /** A positive limit keeps the first `limit` results of the sorted list. */
  lemma SearchLimit(channels: seq<Channel>, term: string, removeDups: bool, n: int)
    requires n > 0
    ensures var all := Search(channels, term, removeDups, None);
      Search(channels, term, removeDups, Some(n)) == if n <= |all| then all[..n] else all
  {
  }

  /** No match gives no results. */
  lemma SearchNoMatch(channels: seq<Channel>, term: string, removeDups: bool, limit: Option<int>)
    requires forall l :: l in Listings(channels) ==> !Matches(term, l)
    ensures Search(channels, term, removeDups, limit) == []
  {
    Seqs.FilterNone(Listings(channels), l => Matches(term, l));
  }
}
