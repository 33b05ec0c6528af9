/**
 * Proxy assignment: account number `index` of one pass over the account list
 * is bound to `proxyList[index % proxyList.length]`, or to no proxy when the
 * list is empty; `createProxyAgent` then turns that choice into a transport.
 */
module ProxyBinding {
  import opened Options
  import LineLists

  /** The proxy of account `index` (main.js line 166). */
  function ProxyFor(proxies: seq<string>, index: nat): (proxy: Option<string>)
    ensures proxy.None? <==> proxies == []
    ensures proxy.Some? ==> proxy.value in proxies
  {
    if |proxies| > 0 then Some(proxies[index % |proxies|]) else None
  }

  /** The position picked is always in bounds and, for the first round of
    * accounts, is the account's own position. */
  lemma ProxyIndex(proxies: seq<string>, index: nat)
    requires proxies != []
    ensures 0 <= index % |proxies| < |proxies|
    ensures index < |proxies| ==> ProxyFor(proxies, index) == Some(proxies[index])
  {
  }

  /** Accounts `index` and `index + k * |proxies|` share a proxy. */
  lemma ProxyPeriodic(proxies: seq<string>, index: nat, k: nat)
    ensures ProxyFor(proxies, index + k * |proxies|) == ProxyFor(proxies, index)
  {
    if proxies != [] {
      var n := |proxies|;
      var q, r := index / n, index % n;
      assert index + k * n == (q + k) * n + r by { assert (q + k) * n == q * n + k * n; }
      ModUnique(index + k * n, n, q + k, r);
    }
  }

  /** The remainder is determined by any quotient-remainder split. */
  lemma ModUnique(x: nat, n: nat, q: int, r: int)
    requires n > 0 && 0 <= r < n && x == q * n + r
    ensures x % n == r
  {
    var d := x / n - q;
    assert d * n == r - x % n by { assert d * n == (x / n) * n - q * n; }
    MulSign(d, n);
  }

  lemma MulSign(d: int, n: int)
    requires n > 0
    ensures d >= 1 ==> d * n >= n
    ensures d <= -1 ==> d * n <= -n
  {
    if d >= 1 {
      MulNonNegative(d - 1, n);
      assert d * n == (d - 1) * n + n;
    }
    if d <= -1 {
      MulNonNegative(-d - 1, n);
      assert d * n == -((-d - 1) * n) - n;
    }
  }

  lemma {:induction false} MulNonNegative(a: nat, b: nat)
    ensures a * b >= 0
  {
    if a > 0 {
      MulNonNegative(a - 1, b);
      assert a * b == (a - 1) * b + b;
    }
  }

  /** With pairwise distinct proxies, two accounts share a proxy exactly when
    * their positions agree modulo the number of proxies. */
  lemma SharedProxyIff(proxies: seq<string>, i: nat, j: nat)
    requires proxies != []
    requires forall a, b :: 0 <= a < b < |proxies| ==> proxies[a] != proxies[b]
    ensures ProxyFor(proxies, i) == ProxyFor(proxies, j) <==> i % |proxies| == j % |proxies|
  {
    var a, b := i % |proxies|, j % |proxies|;
    if a < b {
      assert proxies[a] != proxies[b];
    } else if b < a {
      assert proxies[b] != proxies[a];
    }
  }

  /** One pass over the accounts (the `userDatas.map` at lines 165-168,
    * run sequentially): each credential paired with its proxy. */
  function Assignments(users: seq<string>, proxies: seq<string>): (pairs: seq<(string, Option<string>)>)
    ensures |pairs| == |users|
    ensures forall i :: 0 <= i < |pairs| ==> pairs[i].0 == users[i]
    ensures forall i :: 0 <= i < |pairs| ==> pairs[i].1 == ProxyFor(proxies, i)
    ensures proxies == [] ==> forall i :: 0 <= i < |pairs| ==> pairs[i].1 == None
    ensures proxies != [] ==> forall i :: 0 <= i < |pairs| ==> pairs[i].1.Some? && pairs[i].1.value in proxies
  {
    seq(|users|, i requires 0 <= i < |users| => (users[i], ProxyFor(proxies, i)))
  }

  /** When there are at least as many accounts as proxies, every proxy is
    * used by some account. */
  lemma EveryProxyUsed(users: seq<string>, proxies: seq<string>, p: string)
    requires |users| >= |proxies|
    requires p in proxies
    ensures exists i :: 0 <= i < |users| && Assignments(users, proxies)[i].1 == Some(p)
  {
    var j :| 0 <= j < |proxies| && proxies[j] == p;
    ProxyIndex(proxies, j);
    assert Assignments(users, proxies)[j].1 == Some(p);
  }

  /** The transport an account uses: `createProxyAgent`. */
  datatype Agent =
    | Direct                 // `null`: requests go out without a proxy
    | ViaProxy(url: string)  // an `HttpsProxyAgent` for the URL
    | ConstructionFailed     // the agent library threw

  /** A missing or empty proxy URL is falsy and gives no agent (line 39);
    * otherwise the foreign constructor either accepts the URL or throws,
    * which `constructs` stands for. */
  function CreateProxyAgent(proxy: Option<string>, constructs: bool): (agent: Agent)
    ensures agent == Direct <==> (proxy.None? || proxy.value == [])
    ensures agent.ViaProxy? ==> proxy == Some(agent.url) && constructs
    ensures agent == ConstructionFailed ==> !constructs
  {
    match proxy
    case None => Direct
    case Some(url) =>
      if url == [] then Direct
      else if constructs then ViaProxy(url) else ConstructionFailed
  }

  /** Entries of a parsed proxy file are never empty, so with a non-empty
    * list every account goes through a proxy, never directly. */
  lemma ParsedProxiesNeverDirect(text: string, index: nat, constructs: bool)
    requires LineLists.ParseLines(text) != []
    ensures CreateProxyAgent(ProxyFor(LineLists.ParseLines(text), index), constructs) != Direct
  {
    var proxies := LineLists.ParseLines(text);
    assert proxies[index % |proxies|] != [];
  }
}
