/** The round-robin proxy rotator (`ProxyManager`). */
module Proxies {
  import opened Wrappers

  /**
   * The proxies that `n` successive calls hand out when the cursor starts
   * at `start`.
   */
  function Rotation(proxies: seq<string>, start: nat, n: nat): seq<string>
    requires start < |proxies|
    decreases n
  {
    if n == 0 then [] else [proxies[start]] + Rotation(proxies, (start + 1) % |proxies|, n - 1)
  }

  /** Call `k` of the rotation uses proxy `(start + k) mod |proxies|`. */
  lemma {:induction false} RotationAt(proxies: seq<string>, start: nat, n: nat, k: nat)
    requires start < |proxies| && k < n
    ensures |Rotation(proxies, start, n)| == n
    ensures Rotation(proxies, start, n)[k] == proxies[(start + k) % |proxies|]
    decreases n
  {
    RotationLength(proxies, start, n);
    if k == 0 {
      ModUnique(start, |proxies|, 0, start);
    } else {
      RotationAt(proxies, (start + 1) % |proxies|, n - 1, k - 1);
      ModShift(start, k, |proxies|);
    }
  }

  /** Every call of the rotation at once: call `k` uses proxy `(start + k) mod |proxies|`. */
  lemma RotationCovers(proxies: seq<string>, start: nat, n: nat)
    requires start < |proxies|
    ensures |Rotation(proxies, start, n)| == n
    ensures forall k :: 0 <= k < n ==> Rotation(proxies, start, n)[k] == proxies[(start + k) % |proxies|]
  {
    RotationLength(proxies, start, n);
    forall k | 0 <= k < n
      ensures Rotation(proxies, start, n)[k] == proxies[(start + k) % |proxies|]
    {
      RotationAt(proxies, start, n, k);
    }
  }

  lemma {:induction false} RotationLength(proxies: seq<string>, start: nat, n: nat)
    requires start < |proxies|
    ensures |Rotation(proxies, start, n)| == n
    decreases n
  {
    if n > 0 {
      RotationLength(proxies, (start + 1) % |proxies|, n - 1);
    }
  }

  lemma ModShift(start: nat, k: nat, len: nat)
    requires start < len && k > 0
    ensures ((start + 1) % len + (k - 1)) % len == (start + k) % len
  {
    if start + 1 == len {
      assert (start + 1) % len == 0;
      ModAddPeriod(k - 1, len);
      assert start + k == (k - 1) + len;
    } else {
      assert (start + 1) % len == start + 1;
    }
  }

  /** Adding the period does not change the remainder. */
  lemma ModAddPeriod(x: nat, len: nat)
    requires 0 < len
    ensures (x + len) % len == x % len
  {
    ModUnique(x + len, len, x / len + 1, x % len);
  }

  /** Euclidean division has only one quotient and remainder. */
  lemma ModUnique(a: int, len: int, q: int, r: int)
    requires 0 < len && a == q * len + r && 0 <= r < len
    ensures a % len == r
  {
    var q', r' := a / len, a % len;
    assert (q - q') * len == r' - r;
    if q - q' >= 1 {
      MulAtLeast(q - q', len);
    } else if q' - q >= 1 {
      MulAtLeast(q' - q, len);
    }
  }

  lemma {:induction false} MulAtLeast(d: int, len: int)
    requires d >= 1 && len > 0
    ensures d * len >= len
    decreases d
  {
    if d > 1 {
      MulAtLeast(d - 1, len);
      assert d * len == (d - 1) * len + len;
    }
  }

  /** Rotating for one more call after `n` calls appends the proxy at the new cursor. */
  lemma RotationSnoc(proxies: seq<string>, start: nat, n: nat)
    requires start < |proxies|
    ensures Rotation(proxies, start, n + 1) ==
            Rotation(proxies, start, n) + [proxies[(start + n) % |proxies|]]
  {
    var longer := Rotation(proxies, start, n + 1);
    var extended := Rotation(proxies, start, n) + [proxies[(start + n) % |proxies|]];
    RotationCovers(proxies, start, n + 1);
    RotationCovers(proxies, start, n);
    forall k | 0 <= k < n + 1
      ensures longer[k] == extended[k]
    {
    }
  }

  /** Over the pool `[p1, p2]`, three calls from a fresh rotator give `p1, p2, p1`. */
  lemma TwoProxiesThreeCalls(p1: string, p2: string)
    ensures Rotation([p1, p2], 0, 3) == [p1, p2, p1]
  {
  }

  class ProxyManager {
    const proxies: seq<string>
    var currentProxyIndex: nat

    /** The cursor always points into the pool, and stays at 0 for an empty pool. */
    ghost predicate Valid()
      reads this
    {
      if proxies == [] then currentProxyIndex == 0 else currentProxyIndex < |proxies|
    }

    /** `ProxyManager(proxies)`: a `None` list is passed here as `[]`. */
    constructor (proxies: seq<string>)
      ensures Valid()
      ensures this.proxies == proxies && currentProxyIndex == 0
    {
      this.proxies := proxies;
      currentProxyIndex := 0;
    }

    /** `get_proxy()`: the proxy under the cursor, then the cursor moves on with wrap-around. */
    method GetProxy() returns (proxy: Option<string>)
      requires Valid()
      modifies this
      ensures Valid()
      ensures proxies == [] ==> proxy == None && currentProxyIndex == old(currentProxyIndex)
      ensures proxies != [] ==>
                proxy == Some(proxies[old(currentProxyIndex)])
                && currentProxyIndex == (old(currentProxyIndex) + 1) % |proxies|
    {
      if proxies == [] {
        return None;
      }
      proxy := Some(proxies[currentProxyIndex]);
      currentProxyIndex := (currentProxyIndex + 1) % |proxies|;
    }
  }

  /** Three calls on a fresh rotator over `[p1, p2]`. */
  method RotateTwoProxies(p1: string, p2: string) returns (first: Option<string>, second: Option<string>, third: Option<string>)
    ensures first == Some(p1) && second == Some(p2) && third == Some(p1)
  {
    var manager := new ProxyManager([p1, p2]);
    first := manager.GetProxy();
    second := manager.GetProxy();
    third := manager.GetProxy();
  }

  /** An empty pool hands out nothing, however often it is asked. */
  method RotateEmptyPool() returns (first: Option<string>, second: Option<string>)
    ensures first == None && second == None
  {
    var manager := new ProxyManager([]);
    first := manager.GetProxy();
    second := manager.GetProxy();
  }
}
