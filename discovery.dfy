/** `EC2Service.get_instances_with_tag` and its inner `_describe_instances_page`:
    list the instances carrying a tag, page by page, reservation by
    reservation, into `InstanceInfo` records. */
module Discovery {
  import opened Outcomes
  import opened Ec2Types
  import opened LinearRetry

  /** The `Filters` argument: instances whose tag `key` equals `value`. */
  function TagFilter(key: string, value: string): seq<Filter>
  {
    [Filter("tag:" + key, [value])]
  }

  /** Different tags give different filters, so the listing is asked for
      exactly the configured tag. */
  lemma TagFilterInjective(k1: string, v1: string, k2: string, v2: string)
    requires TagFilter(k1, v1) == TagFilter(k2, v2)
    ensures k1 == k2 && v1 == v2
  {
    var n1, n2 := "tag:" + k1, "tag:" + k2;
    assert n1 == TagFilter(k1, v1)[0].name;
    assert k1 == n1[4..] && k2 == n2[4..];
  }

  /** The tag dictionary `{tag['Key']: tag['Value'] for tag in tags}`: later
      tags overwrite earlier ones with the same key. */
  function TagMap(tags: seq<Tag>): (m: map<string, string>)
    ensures m.Keys == set i | 0 <= i < |tags| :: tags[i].key
  {
    if tags == [] then map[]
    else
      var last := tags[|tags| - 1];
      var m := TagMap(tags[..|tags| - 1])[last.key := last.value];
      assert forall i | 0 <= i < |tags| - 1 :: tags[..|tags| - 1][i] == tags[i];
      m
  }

  /** Last write wins: each key maps to the value of the last tag with that key. */
  lemma {:induction false} TagMapLastWins(tags: seq<Tag>, key: string) returns (i: nat)
    requires key in TagMap(tags)
    ensures i < |tags| && tags[i] == Tag(key, TagMap(tags)[key])
    ensures forall j :: i < j < |tags| ==> tags[j].key != key
  {
    var n := |tags|;
    var init := tags[..n - 1];
    if tags[n - 1].key == key {
      i := n - 1;
    } else {
      assert key in TagMap(init);
      i := TagMapLastWins(init, key);
      assert tags[i] == init[i];
    }
  }

  /** The record `_describe_instances_page` makes of a listed instance. */
  function ToInfo(d: Descriptor): InstanceInfo
  {
    InstanceInfo(d.instanceId, d.state, TagMap(d.tags))
  }

  /** One record per descriptor, in order. */
  function Infos(ds: seq<Descriptor>): seq<InstanceInfo>
  {
    seq(|ds|, k requires 0 <= k < |ds| => ToInfo(ds[k]))
  }

  /** Concatenation of a sequence of sequences, in order. */
  function Flatten<T>(ss: seq<seq<T>>): seq<T>
  {
    if ss == [] then [] else Flatten(ss[..|ss| - 1]) + ss[|ss| - 1]
  }

  /** Every listed instance: the pages in order, within a page its
      reservations in order, within a reservation its instances in order. */
  function Listed(pages: seq<Page>): seq<Descriptor>
  {
    if pages == [] then [] else Listed(pages[..|pages| - 1]) + Flatten(pages[|pages| - 1])
  }

  lemma InfosAppend(a: seq<Descriptor>, b: seq<Descriptor>)
    ensures Infos(a + b) == Infos(a) + Infos(b)
  {
  }

  /** Listing keeps page order: listing a split walk is listing each part. */
  lemma {:induction false} ListedAppend(a: seq<Page>, b: seq<Page>)
    ensures Listed(a + b) == Listed(a) + Listed(b)
    decreases |b|
  {
    if b == [] {
      assert a + b == a;
    } else {
      var init, last := b[..|b| - 1], b[|b| - 1];
      assert b == init + [last];
      calc {
        Listed(a + b);
      == { assert a + b == (a + init) + [last]; }
        Listed((a + init) + [last]);
      == { ListedSnoc(a + init, last); }
        Listed(a + init) + Flatten(last);
      == { ListedAppend(a, init); }
        Listed(a) + Listed(init) + Flatten(last);
      == { ListedSnoc(init, last); }
        Listed(a) + Listed(b);
      }
    }
  }

  /** Listing one more page appends its flattened reservations. */
  lemma ListedSnoc(pages: seq<Page>, page: Page)
    ensures Listed(pages + [page]) == Listed(pages) + Flatten(page)
  {
    assert (pages + [page])[..|pages|] == pages;
  }

  /** An instance is listed exactly when it is in some reservation of some page. */
  lemma {:induction false} ListedMembership(pages: seq<Page>, d: Descriptor)
    ensures d in Listed(pages) <==>
      exists p, r :: 0 <= p < |pages| && 0 <= r < |pages[p]| && d in pages[p][r]
  {
    if pages != [] {
      var n := |pages|;
      ListedMembership(pages[..n - 1], d);
      FlattenMembership(pages[n - 1], d);
      if d in Listed(pages) {
        if d in Listed(pages[..n - 1]) {
          var p, r :| 0 <= p < n - 1 && 0 <= r < |pages[..n - 1][p]| && d in pages[..n - 1][p][r];
          assert d in pages[p][r];
        }
      } else {
        forall p, r | 0 <= p < n && 0 <= r < |pages[p]| ensures d !in pages[p][r] {
          if p < n - 1 {
            assert pages[p] == pages[..n - 1][p];
          }
        }
      }
    }
  }

  lemma {:induction false} FlattenMembership<T>(ss: seq<seq<T>>, x: T)
    ensures x in Flatten(ss) <==> exists r :: 0 <= r < |ss| && x in ss[r]
  {
    if ss != [] {
      var n := |ss|;
      FlattenMembership(ss[..n - 1], x);
      if x in Flatten(ss[..n - 1]) {
        var r :| 0 <= r < n - 1 && x in ss[..n - 1][r];
        assert x in ss[r];
      }
      if x !in Flatten(ss) {
        forall r | 0 <= r < n ensures x !in ss[r] {
          if r < n - 1 {
            assert ss[r] == ss[..n - 1][r];
          }
        }
      }
    }
  }

  /** `_describe_instances_page`: the triple loop over pages, reservations and
      instances, appending one record per instance. */
  method DescribeInstancesPage(pages: seq<Page>) returns (results: seq<InstanceInfo>)
    ensures |results| == |Listed(pages)|
    ensures forall k :: 0 <= k < |results| ==>
      results[k] == InstanceInfo(Listed(pages)[k].instanceId, Listed(pages)[k].state, TagMap(Listed(pages)[k].tags))
  {
    results := [];
    var p := 0;
    while p < |pages|
      invariant 0 <= p <= |pages|
      invariant results == Infos(Listed(pages[..p]))
    {
      var page := pages[p];
      ghost var done := Listed(pages[..p]);
      var r := 0;
      while r < |page|
        invariant 0 <= r <= |page|
        invariant results == Infos(done + Flatten(page[..r]))
      {
        var reservation := page[r];
        ghost var before := done + Flatten(page[..r]);
        var i := 0;
        while i < |reservation|
          invariant 0 <= i <= |reservation|
          invariant results == Infos(before + reservation[..i])
        {
          InfosSnoc(before, reservation, i);
          results := results + [ToInfo(reservation[i])];
          i := i + 1;
        }
        FlattenStep(page, r);
        assert reservation[..i] == reservation;
        assert before + reservation == done + Flatten(page[..r + 1]);
        r := r + 1;
      }
      ListedStep(pages, p);
      assert page[..r] == page;
      p := p + 1;
    }
    assert pages[..p] == pages;
  }

  /** Appending the next instance of a reservation appends its record. */
  lemma InfosSnoc(before: seq<Descriptor>, reservation: Reservation, i: nat)
    requires i < |reservation|
    ensures Infos(before + reservation[..i + 1]) == Infos(before + reservation[..i]) + [ToInfo(reservation[i])]
  {
    assert before + reservation[..i + 1] == (before + reservation[..i]) + [reservation[i]];
    InfosAppend(before + reservation[..i], [reservation[i]]);
  }

  /** Flattening one more reservation appends its instances. */
  lemma FlattenStep<T>(ss: seq<seq<T>>, r: nat)
    requires r < |ss|
    ensures Flatten(ss[..r + 1]) == Flatten(ss[..r]) + ss[r]
  {
    assert ss[..r + 1][..r] == ss[..r];
  }

  /** Listing one more page appends its flattened reservations. */
  lemma ListedStep(pages: seq<Page>, p: nat)
    requires p < |pages|
    ensures Listed(pages[..p + 1]) == Listed(pages[..p]) + Flatten(pages[p])
  {
    assert pages[..p + 1] == pages[..p] + [pages[p]];
    ListedSnoc(pages[..p], pages[p]);
  }

  /** What `get_instances_with_tag` returns or raises: the listing walk is
      retried with the default policy, and its instances become records. */
  function Discover(api: Ec2Api, key: string, value: string): Outcome<seq<InstanceInfo>>
  {
    match Retry(api.listPages(TagFilter(key, value)), DefaultMaxRetries, DefaultDelayMs).outcome
    case Ok(pages) => Ok(Infos(Listed(pages)))
    case Network(m) => Network(m)
    case Client(c, m) => Client(c, m)
    case Other(m) => Other(m)
  }

  /** `get_instances_with_tag`. */
  method GetInstancesWithTag(api: Ec2Api, key: string, value: string)
    returns (r: Outcome<seq<InstanceInfo>>)
    ensures r == Discover(api, key, value)
  {
    var filters := TagFilter(key, value);
    var listing, _, _ := RetryWithLinearBackoff(api.listPages(filters), DefaultMaxRetries, DefaultDelayMs);
    match listing {
      case Ok(pages) =>
        var instances := DescribeInstancesPage(pages);
        assert instances == Infos(Listed(pages));
        r := Ok(instances);
      // ClientError and every other exception are logged and re-raised
      case Network(m) => r := Network(m);
      case Client(c, m) => r := Client(c, m);
      case Other(m) => r := Other(m);
    }
  }

  /** A successful discovery lists every instance of the walk that succeeded,
      in order, with its id and state copied; any failure of the walk is
      raised unchanged. */
  lemma DiscoverResult(api: Ec2Api, key: string, value: string)
    ensures var run := Retry(api.listPages(TagFilter(key, value)), DefaultMaxRetries, DefaultDelayMs);
      match run.outcome
      case Ok(pages) =>
        var ds := Listed(pages);
        && Discover(api, key, value).Ok?
        && |Discover(api, key, value).value| == |ds|
        && forall k :: 0 <= k < |ds| ==>
             && Discover(api, key, value).value[k].instanceId == ds[k].instanceId
             && Discover(api, key, value).value[k].state == ds[k].state
      case Network(m) => Discover(api, key, value) == Network(m)
      case Client(c, m) => Discover(api, key, value) == Client(c, m)
      case Other(m) => Discover(api, key, value) == Other(m)
  {
  }
}
