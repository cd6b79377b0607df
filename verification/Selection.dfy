/** The random selections of gossip/common.go and gossip/filter.go. Random numbers are parameters: the
    contracts hold for every sequence of draws. */
module Selection {
  import opened Sequences
  import opened Messages
  import opened Membership

  /** Go's remainder truncates toward zero. */
  function Rem(a: int, n: int): int
    requires n > 0
  {
    if a >= 0 then a % n else -((-a) % n)
  }

  /** `RandomInt` for a given 64-bit draw: the conversion to a signed integer may make it negative. */
  function RandomInt(draw: uint64, n: int): (r: int)
    requires n > 0
    ensures 0 <= r < n
  {
    var m := Rem(ToInt64(draw), n);
    if m < 0 then n + m else m
  }

  /** The result is the draw, read as a signed integer, up to a multiple of n. */
  lemma RandomIntIsResidue(draw: uint64, n: int) returns (q: int)
    requires n > 0
    ensures ToInt64(draw) == q * n + RandomInt(draw, n)
  {
    var a := ToInt64(draw);
    if a >= 0 {
      q := a / n;
    } else {
      q := -((-a) / n) - if (-a) % n == 0 then 0 else 1;
      assert -a == (-a) / n * n + (-a) % n;
    }
  }

  method IndexInSlice<T(==)>(arr: seq<T>, o: T) returns (index: int)
    ensures index == -1 ==> o !in arr
    ensures index != -1 ==> 0 <= index < |arr| && arr[index] == o && o !in arr[..index]
  {
    for i := 0 to |arr|
      invariant o !in arr[..i]
    {
      if arr[i] == o {
        return i;
      }
    }
    index := -1;
  }

  ghost predicate Distinct<T(!new)>(s: seq<T>) {
    forall i, j | 0 <= i < j < |s| :: s[i] != s[j]
  }

  /** The distinct indices among some draws, in order of first appearance. */
  function Drawn(draws: seq<uint64>, n: int): seq<int>
    requires n > 0
  {
    if draws == [] then []
    else var before, last := Drawn(draws[..|draws| - 1], n), RandomInt(draws[|draws| - 1], n);
         if last in before then before else before + [last]
  }

  /** `GetRandomIndices` on a finite supply of draws; `done` is false if the supply ran out first, which
      is the only way not to finish. The result is nil (None) if more indices are asked for than exist. */
  method GetRandomIndices(indiceCount: int, highestIndex: int, draws: seq<uint64>)
    returns (done: bool, indices: Option<seq<int>>)
    requires highestIndex >= -1
    ensures indices == None <==> highestIndex + 1 < indiceCount
    ensures indices.Some? ==>
              && Distinct(indices.value)
              && (forall n | n in indices.value :: 0 <= n <= highestIndex)
              && (done ==> |indices.value| == if indiceCount < 0 then 0 else indiceCount)
    ensures highestIndex + 1 <= indiceCount ==> done
    ensures indices.Some? && highestIndex + 1 > indiceCount ==>
              exists k | 0 <= k <= |draws| ::
                highestIndex + 1 > 0 ==> indices.value == Drawn(draws[..k], highestIndex + 1)
  {
    if highestIndex + 1 < indiceCount {
      return true, None;
    }
    var found: seq<int> := [];
    if highestIndex + 1 == indiceCount {
      for i := 0 to indiceCount
        invariant |found| == i && forall k | 0 <= k < i :: found[k] == k
      {
        found := found + [i];
      }
      return true, Some(found);
    }
    var next := 0;
    while |found| < indiceCount && next < |draws|
      invariant Distinct(found) && next <= |draws|
      invariant highestIndex + 1 > 0 ==> found == Drawn(draws[..next], highestIndex + 1)
      invariant |found| <= if indiceCount < 0 then 0 else indiceCount
      invariant forall n | n in found :: 0 <= n <= highestIndex
      decreases |draws| - next
    {
      var n := RandomInt(draws[next], highestIndex + 1);
      assert draws[..next + 1][..next] == draws[..next];
      next := next + 1;
      var at := IndexInSlice(found, n);
      if at != -1 {
        continue;
      }
      found := found + [n];
    }
    done, indices := |found| >= indiceCount, Some(found);
  }

  // ----- Selecting peers -----

  datatype RemotePeer = RemotePeer(endpoint: string, pkiId: PkiId)

  type RoutingFilter = Peer -> bool

  function PreferredEndpoint(p: Peer): string {
    if p.internalEndpoint != "" then p.internalEndpoint else p.endpoint
  }

  function Remote(p: Peer): RemotePeer {
    RemotePeer(PreferredEndpoint(p), p.pkiId)
  }

  /** A peer with an internal endpoint is addressed by it, any other by its external one. */
  lemma AddressedAt(p: Peer)
    ensures Remote(p).pkiId == p.pkiId
    ensures p.internalEndpoint != "" ==> Remote(p).endpoint == p.internalEndpoint
    ensures p.internalEndpoint == "" ==> Remote(p).endpoint == p.endpoint
  {
  }

  function Remotes(s: seq<Peer>): (r: seq<RemotePeer>)
    ensures |r| == |s| && forall i | 0 <= i < |s| :: r[i] == Remote(s[i])
  {
    seq(|s|, i requires 0 <= i < |s| => Remote(s[i]))
  }

  /** `CombineRoutingFilters`: all filters must agree. */
  function Combine(filters: seq<RoutingFilter>): RoutingFilter {
    (p: Peer) => forall i | 0 <= i < |filters| :: filters[i](p)
  }

  function Take<T>(k: int, s: seq<T>): seq<T> {
    if 0 <= k < |s| then s[..k] else s
  }

  lemma TakenIsFinal(k: int, filter: RoutingFilter, s: seq<Peer>, i: int)
    requires 0 <= i <= |s| && |Take(k, Filter(filter, s[..i]))| == k
    ensures Take(k, Filter(filter, s)) == Take(k, Filter(filter, s[..i]))
  {
    assert s == s[..i] + s[i..];
    FilterConcat(filter, s[..i], s[i..]);
  }

  /** `SelectPeers`; `shuffled` is the pool in the order of the random permutation. A negative k selects
      every eligible peer. */
  method SelectPeers(k: int, shuffled: seq<Peer>, filter: RoutingFilter) returns (res: seq<RemotePeer>)
    ensures res == Remotes(Take(k, Filter(filter, shuffled)))
  {
    res := [];
    for i := 0 to |shuffled|
      invariant res == Remotes(Take(k, Filter(filter, shuffled[..i])))
    {
      if |res| == k {
        TakenIsFinal(k, filter, shuffled, i);
        return;
      }
      FilterStep(filter, shuffled, i);
      if filter(shuffled[i]) {
        res := res + [Remote(shuffled[i])];
      }
    }
    assert shuffled[..|shuffled|] == shuffled;
  }

  /** Whatever the permutation, as many peers are selected as asked for and eligible, and only eligible
      ones. */
  lemma SelectionCount(k: int, pool: seq<Peer>, shuffled: seq<Peer>, filter: RoutingFilter)
    requires multiset(shuffled) == multiset(pool)
    ensures var eligible := Count(filter, pool);
            |Take(k, Filter(filter, shuffled))| == if 0 <= k < eligible then k else eligible
    ensures forall p | p in Take(k, Filter(filter, shuffled)) :: p in pool && filter(p)
  {
    CountOfMultiset(filter, shuffled, pool);
    CountIsFilter(filter, shuffled);
    FilterMembers(filter, shuffled);
    forall p | p in shuffled
      ensures p in pool
    {
      assert p in multiset(shuffled);
    }
  }
}
