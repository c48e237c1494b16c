/**
 * `filterStations` (services/radioService.ts): one pass over the decoded
 * response that drops unplayable records and keeps, per station name, the
 * record with the most votes (the first one on a tie) in a `Map`, followed
 * by a stable sort of the map's values, most votes first.
 */
module StationFilter {
  import opened JsText
  import opened RadioTypes
  import opened VoteSort

  /** `url.charCodeAt(4) === 115`: the fifth character is 's'; shorter URLs give NaN and fail. */
  predicate FifthCharIsS(url: string) {
    |url| > 4 && url[4] == 's'
  }

  /** The codec test: the lower-cased codec or the URL mentions MP3 or AAC, or no codec is given. */
  predicate IsBrowserCompatible(st: Station) {
    var codec := ToLower(st.codec);
    Contains(codec, "mp3") || Contains(codec, "aac")
    || Contains(st.url_resolved, ".mp3") || Contains(st.url_resolved, ".aac")
    || codec == ""
  }

  /** An array element that passes every test of the loop (it then competes for its name). */
  predicate Admitted(item: Json) {
    && item.JStation?
    && item.station.url_resolved != ""
    && FifthCharIsS(item.station.url_resolved)
    && IsBrowserCompatible(item.station)
  }

  /** The admitted records, in input order. */
  function Survivors(items: seq<Json>): (s: seq<Station>)
    ensures |s| <= |items|
  {
    if items == [] then []
    else
      var last := items[|items| - 1];
      Survivors(items[..|items| - 1]) + (if Admitted(last) then [last.station] else [])
  }

  /** The names of `s`, in order. */
  function Names(s: seq<Station>): (r: seq<string>) {
    if s == [] then [] else Names(s[..|s| - 1]) + [s[|s| - 1].name]
  }

  /** The keys of the `Map` after the records of `s` were offered to it, in insertion order. */
  function FirstSeen(s: seq<Station>): (r: seq<string>)
    ensures |r| <= |s|
  {
    if s == [] then []
    else
      var f := FirstSeen(s[..|s| - 1]);
      var x := s[|s| - 1];
      if x.name in f then f else f + [x.name]
  }

  /**
   * The `Map` from name to record after the records of `s` were offered:
   * a record replaces the one stored under its name only with strictly more votes.
   */
  function Kept(s: seq<Station>): (m: map<string, Station>) {
    if s == [] then map[]
    else
      var m := Kept(s[..|s| - 1]);
      var x := s[|s| - 1];
      if x.name !in m || x.votes > m[x.name].votes then m[x.name := x] else m
  }

  /**
   * The map's key order and its table agree: both hold exactly the names
   * offered, each key once, and each name maps to an offered record of that name.
   */
  lemma {:induction false} KeysAgree(s: seq<Station>)
    ensures forall k :: k in FirstSeen(s) <==> k in Names(s)
    ensures forall k :: k in Kept(s) <==> k in Names(s)
    ensures forall i, j :: 0 <= i < j < |FirstSeen(s)| ==> FirstSeen(s)[i] != FirstSeen(s)[j]
    ensures forall k | k in Kept(s) :: Kept(s)[k].name == k && Kept(s)[k] in s
  {
    if s != [] {
      KeysAgree(s[..|s| - 1]);
      assert s == s[..|s| - 1] + [s[|s| - 1]];
    }
  }

  /** `Array.from(uniqueStations.values())`: the kept records in the map's insertion order. */
  function Deduplicated(s: seq<Station>): (r: seq<Station>)
    ensures |r| == |FirstSeen(s)|
  {
    var f := FirstSeen(s);
    var m := Kept(s);
    KeysAgree(s);
    seq(|f|, j requires 0 <= j < |f| => m[f[j]])
  }

  /** The result `filterStations` returns for a decoded response. */
  function Normalize(data: Json): seq<Station> {
    if data.JArray? then SortByVotes(Deduplicated(Survivors(data.items))) else []
  }

  /** No two records share a name. */
  predicate DistinctNames(s: seq<Station>) {
    forall i, j :: 0 <= i < j < |s| ==> s[i].name != s[j].name
  }

  /** `filterStations(data)`, with the `Map` as its key order and its key-to-record table. */
  method FilterStations(data: Json) returns (r: seq<Station>)
    ensures r == Normalize(data)
  {
    if !data.JArray? {
      return [];
    }
    var items := data.items;
    var order: seq<string> := [];
    var uniqueStations: map<string, Station> := map[];
    ghost var admitted: seq<Station> := [];
    var len := |items|;
    for i := 0 to len
      invariant admitted == Survivors(items[..i])
      invariant order == FirstSeen(admitted)
      invariant uniqueStations == Kept(admitted)
    {
      SurvivorsStep(items, i);
      var item := items[i];
      if !item.JStation? || item.station.url_resolved == "" {
        assert !Admitted(item);
        continue;
      }
      var station := item.station;
      var url := station.url_resolved;
      if !(|url| > 4 && url[4] == 's') {
        assert !Admitted(item);
        continue;
      }
      var codec := ToLower(station.codec);
      var isBrowserCompatible :=
        Contains(codec, "mp3") ||
        Contains(codec, "aac") ||
        Contains(url, ".mp3") ||
        Contains(url, ".aac") ||
        codec == "";
      assert isBrowserCompatible <==> Admitted(item);
      if isBrowserCompatible {
        OfferStep(admitted, station);
        KeyOrderHasKey(admitted, station.name);
        if station.name !in uniqueStations {
          uniqueStations := uniqueStations[station.name := station];
          order := order + [station.name];
        } else if station.votes > uniqueStations[station.name].votes {
          uniqueStations := uniqueStations[station.name := station];
        }
        admitted := admitted + [station];
      }
    }
    assert items[..len] == items;
    KeysAgree(admitted);
    var values := seq(|order|, j requires 0 <= j < |order| => uniqueStations[order[j]]);
    r := SortByVotes(values);
  }

  /** The survivors of one more element: the element is appended exactly when it is admitted. */
  lemma SurvivorsStep(items: seq<Json>, i: nat)
    requires i < |items|
    ensures Survivors(items[..i + 1]) ==
      Survivors(items[..i]) + (if Admitted(items[i]) then [items[i].station] else [])
  {
    assert items[..i + 1][..i] == items[..i];
  }

  /** Offering one more record to the map: a new name is appended, a known one replaced only on more votes. */
  lemma OfferStep(s: seq<Station>, x: Station)
    ensures FirstSeen(s + [x]) == if x.name in FirstSeen(s) then FirstSeen(s) else FirstSeen(s) + [x.name]
    ensures Kept(s + [x]) ==
      if x.name !in Kept(s) || x.votes > Kept(s)[x.name].votes then Kept(s)[x.name := x] else Kept(s)
  {
    assert (s + [x])[..|s|] == s;
  }

  /** A name is in the map's key order exactly when it is a key of the map. */
  lemma KeyOrderHasKey(s: seq<Station>, k: string)
    ensures k in FirstSeen(s) <==> k in Kept(s)
  {
    KeysAgree(s);
  }

  lemma {:induction false} NamesIndex(s: seq<Station>)
    ensures |Names(s)| == |s|
    ensures forall i :: 0 <= i < |s| ==> Names(s)[i] == s[i].name
  {
    if s != [] {
      NamesIndex(s[..|s| - 1]);
    }
  }

  /** Every admitted element is among the survivors, and every survivor is an admitted element. */
  lemma {:induction false} SurvivorsAreAdmitted(items: seq<Json>)
    ensures forall x | x in Survivors(items) :: JStation(x) in items && Admitted(JStation(x))
    ensures forall i | 0 <= i < |items| && Admitted(items[i]) :: items[i].station in Survivors(items)
  {
    if items != [] {
      var init := items[..|items| - 1];
      SurvivorsAreAdmitted(init);
      assert items == init + [items[|items| - 1]];
      forall i | 0 <= i < |items| && Admitted(items[i])
        ensures items[i].station in Survivors(items)
      {
        if i < |items| - 1 {
          assert items[i] == init[i];
        }
      }
    }
  }

  /** The kept record of each name has at least the votes of every record with that name. */
  lemma {:induction false} KeptIsMaximal(s: seq<Station>)
    ensures forall i | 0 <= i < |s| :: s[i].name in Kept(s) && s[i].votes <= Kept(s)[s[i].name].votes
  {
    NamesIndex(s);
    if s != [] {
      var init := s[..|s| - 1];
      KeptIsMaximal(init);
      forall i | 0 <= i < |s|
        ensures s[i].name in Kept(s) && s[i].votes <= Kept(s)[s[i].name].votes
      {
        if i < |s| - 1 {
          assert s[i] == init[i];
        }
      }
    }
  }

  /**
   * The kept record of a name is the earliest record with that name that
   * has the greatest votes: every earlier record with the name has fewer.
   */
  lemma {:induction false} KeptIsFirstMaximal(s: seq<Station>, k: string) returns (j: nat)
    requires k in Kept(s)
    ensures j < |s| && s[j] == Kept(s)[k]
    ensures forall i :: 0 <= i < j && s[i].name == k ==> s[i].votes < s[j].votes
  {
    var init := s[..|s| - 1];
    var x := s[|s| - 1];
    var m := Kept(init);
    if x.name == k && (k !in m || x.votes > m[k].votes) {
      j := |s| - 1;
      KeptIsMaximal(init);
      forall i | 0 <= i < j && s[i].name == k
        ensures s[i].votes < s[j].votes
      {
        assert s[i] == init[i];
      }
    } else {
      assert k in m by {
        if x.name != k {
          NamesIndex(s);
          NamesIndex(init);
          assert Names(s) == Names(init) + [x.name];
        }
      }
      j := KeptIsFirstMaximal(init, k);
      forall i | 0 <= i < j && s[i].name == k
        ensures s[i].votes < s[j].votes
      {
        assert s[i] == init[i];
      }
    }
  }

  /** The map's values are listed in order of first appearance of their names. */
  lemma DeduplicatedNames(s: seq<Station>)
    ensures forall j | 0 <= j < |Deduplicated(s)| :: Deduplicated(s)[j].name == FirstSeen(s)[j]
    ensures DistinctNames(Deduplicated(s))
    ensures forall x | x in Deduplicated(s) :: x in s
  {
    KeysAgree(s);
  }

  /** A record whose name the rest does not use can be put in front of it. */
  lemma ConsDistinct(y: Station, t: seq<Station>)
    requires DistinctNames(t)
    requires forall z | z in t :: z.name != y.name
    ensures DistinctNames([y] + t)
  {
    var r := [y] + t;
    forall i, j | 0 <= i < j < |r| ensures r[i].name != r[j].name {
      assert r[j] == t[j - 1];
      if i > 0 {
        assert r[i] == t[i - 1];
      }
    }
  }

  lemma {:induction false} InsertDistinct(x: Station, t: seq<Station>)
    requires DistinctNames(t)
    requires forall y | y in t :: y.name != x.name
    ensures DistinctNames(Insert(x, t))
    decreases |t|
  {
    if t != [] && x.votes < t[0].votes {
      var tail := t[1..];
      assert DistinctNames(tail) by {
        forall i, j | 0 <= i < j < |tail| ensures tail[i].name != tail[j].name {
          assert tail[i] == t[i + 1] && tail[j] == t[j + 1];
        }
      }
      var rest := Insert(x, tail);
      InsertDistinct(x, tail);
      InsertPermutes(x, tail);
      forall y | y in rest ensures y.name != t[0].name {
        assert y in multiset(rest);
        if y != x {
          assert y in multiset(tail);
          var p :| 0 <= p < |tail| && tail[p] == y;
          assert t[p + 1] == y;
        }
      }
      ConsDistinct(t[0], rest);
    } else {
      ConsDistinct(x, t);
    }
  }

  /** Sorting by votes keeps names distinct. */
  lemma {:induction false} SortKeepsDistinctNames(s: seq<Station>)
    requires DistinctNames(s)
    ensures DistinctNames(SortByVotes(s))
    decreases |s|
  {
    if s != [] {
      var t := SortByVotes(s[1..]);
      assert DistinctNames(s[1..]) by {
        forall i, j | 0 <= i < j < |s[1..]| ensures s[1..][i].name != s[1..][j].name {
          assert s[1..][i] == s[i + 1] && s[1..][j] == s[j + 1];
        }
      }
      SortKeepsDistinctNames(s[1..]);
      SortByVotesMembers(s[1..]);
      forall y | y in t ensures y.name != s[0].name {
        var p :| 0 <= p < |s[1..]| && s[1..][p] == y;
        assert s[p + 1] == y;
      }
      InsertDistinct(s[0], t);
    }
  }

  /**
   * What `filterStations` keeps: nothing for a response that is not an
   * array, and otherwise only unchanged elements of the array that passed
   * the URL and codec tests, at most one per element.
   */
  lemma FilterKeepsAdmittedRecords(data: Json)
    ensures !data.JArray? ==> Normalize(data) == []
    ensures data.JArray? ==> |Normalize(data)| <= |data.items|
    ensures forall x | x in Normalize(data) ::
      data.JArray? && JStation(x) in data.items && Admitted(JStation(x))
  {
    if data.JArray? {
      var s := Survivors(data.items);
      SortByVotesMembers(Deduplicated(s));
      DeduplicatedNames(s);
      SurvivorsAreAdmitted(data.items);
    }
  }

  /** Every record `filterStations` returns has a URL of five characters or more whose fifth is 's'. */
  lemma FilterRequiresFifthCharS(data: Json)
    ensures forall x | x in Normalize(data) ::
      x.url_resolved != "" && |x.url_resolved| > 4 && x.url_resolved[4] == 's'
  {
    FilterKeepsAdmittedRecords(data);
  }

  /** No two records `filterStations` returns share a name. */
  lemma FilterNamesUnique(data: Json)
    ensures DistinctNames(Normalize(data))
  {
    if data.JArray? {
      var s := Survivors(data.items);
      DeduplicatedNames(s);
      SortKeepsDistinctNames(Deduplicated(s));
    }
  }

  /** Every name offered to the map has a record among its values. */
  lemma DeduplicatedCoversNames(s: seq<Station>)
    ensures forall i | 0 <= i < |s| :: exists x :: x in Deduplicated(s) && x.name == s[i].name
  {
    var d := Deduplicated(s);
    var f := FirstSeen(s);
    NamesIndex(s);
    KeysAgree(s);
    forall i | 0 <= i < |s| ensures exists x :: x in d && x.name == s[i].name {
      assert Names(s)[i] == s[i].name;
      assert s[i].name in f;
      var j :| 0 <= j < |f| && f[j] == s[i].name;
      assert d[j] in d;
    }
  }

  /**
   * `s[j]` has the most votes among the records of `s` that share its name,
   * and every earlier record with that name has strictly fewer.
   */
  predicate IsBestOfName(s: seq<Station>, j: int) {
    && 0 <= j < |s|
    && (forall i :: 0 <= i < |s| && s[i].name == s[j].name ==> s[i].votes <= s[j].votes)
    && (forall i :: 0 <= i < j && s[i].name == s[j].name ==> s[i].votes < s[j].votes)
  }

  /** Each value of the map is the first offered record of its name with the most votes. */
  lemma DeduplicatedBest(s: seq<Station>)
    ensures forall x | x in Deduplicated(s) :: exists j :: IsBestOfName(s, j) && s[j] == x
  {
    var d := Deduplicated(s);
    var f := FirstSeen(s);
    KeysAgree(s);
    KeptIsMaximal(s);
    forall x | x in d
      ensures exists j :: IsBestOfName(s, j) && s[j] == x
    {
      var p :| 0 <= p < |d| && d[p] == x;
      var j := KeptIsFirstMaximal(s, f[p]);
      assert IsBestOfName(s, j);
    }
  }

  /**
   * One record per name, and the right one: every admitted name is
   * represented, and the record kept for a name has the most votes among the
   * admitted records with that name, while every earlier admitted record with
   * that name has strictly fewer (a tie keeps the first).
   */
  lemma FilterKeepsBestPerName(data: Json)
    requires data.JArray?
    ensures var s := Survivors(data.items);
      forall i | 0 <= i < |s| :: exists x :: x in Normalize(data) && x.name == s[i].name
    ensures var s := Survivors(data.items);
      forall x | x in Normalize(data) :: exists j :: IsBestOfName(s, j) && s[j] == x
  {
    var s := Survivors(data.items);
    var d := Deduplicated(s);
    var out := Normalize(data);
    assert out == SortByVotes(d);
    SortByVotesMembers(d);
    assert forall x :: x in out <==> x in d;
    DeduplicatedCoversNames(s);
    DeduplicatedBest(s);
    forall i | 0 <= i < |s| ensures exists x :: x in out && x.name == s[i].name {
      var x :| x in d && x.name == s[i].name;
      assert x in out;
    }
  }

  /**
   * The result is ordered by votes, most first, and records with equal votes
   * appear in the order in which their names were first seen.
   */
  lemma FilterOrdersByVotes(data: Json)
    ensures SortedByVotes(Normalize(data))
    ensures data.JArray? ==> forall v ::
      WithVotes(Normalize(data), v) == WithVotes(Deduplicated(Survivors(data.items)), v)
  {
    if data.JArray? {
      SortByVotesCorrect(Deduplicated(Survivors(data.items)));
    }
  }
}
