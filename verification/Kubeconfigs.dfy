/** Kubeconfig values and the merge of one context (pkg/k8s/kubeconfig/builder.go). */
module Kubeconfigs {
  import opened Wrappers

  datatype Context = Context(cluster: string, authInfo: string, namespace: string)
  datatype AuthInfo = AuthInfo(credentials: string)
  datatype Endpoint = Endpoint(server: string)

  datatype Kubeconfig = Kubeconfig(
    contexts: map<string, Context>,
    authInfos: map<string, AuthInfo>,
    clusters: map<string, Endpoint>,
    currentContext: string)

  const EMPTY_CONFIG := Kubeconfig(map[], map[], map[], "")

  /** What a merge leaves behind: on failure the destination may be half written. */
  datatype Merged = Merged(ok: bool, config: Kubeconfig)

  /** Each context names a user and a cluster that are present. */
  ghost predicate Closed(k: Kubeconfig) {
    forall c :: c in k.contexts ==>
      k.contexts[c].authInfo in k.authInfos && k.contexts[c].cluster in k.clusters
  }

  /** The configuration of one context and nothing else. */
  ghost predicate Single(c: string, k: Kubeconfig) {
    && k.contexts.Keys == {c}
    && k.authInfos.Keys == {k.contexts[c].authInfo}
    && k.clusters.Keys == {k.contexts[c].cluster}
    && k.currentContext == ""
  }

  /** All entries of one put over those of k. */
  ghost function Overlay(k: Kubeconfig, one: Kubeconfig): Kubeconfig {
    Kubeconfig(k.contexts + one.contexts, k.authInfos + one.authInfos, k.clusters + one.clusters,
               k.currentContext)
  }

  lemma OverlaySingle(k: Kubeconfig, c: string, one: Kubeconfig)
    requires Closed(k) && Single(c, one)
    ensures Closed(Overlay(k, one))
    ensures Overlay(k, one).contexts == k.contexts[c := one.contexts[c]]
  {
  }

  /** The context a source name selects; the empty name selects the only one. */
  ghost function SourceContext(name: string, src: Kubeconfig): Option<Context> {
    if |src.contexts| > 1 && name == "" then None
    else if name in src.contexts then Some(src.contexts[name])
    else if name == "" && |src.contexts| == 1 then
      var only :| only in src.contexts; Some(src.contexts[only])
    else None
  }

  ghost function MergeContext(dest: string, name: string, dst: Kubeconfig, src: Kubeconfig): Merged {
    match SourceContext(name, src)
    case None => Merged(false, dst)
    case Some(context) =>
      var d1 := dst.(contexts := dst.contexts[dest := context]);
      if context.authInfo !in src.authInfos then Merged(false, d1) else
      var d2 := d1.(authInfos := d1.authInfos[context.authInfo := src.authInfos[context.authInfo]]);
      if context.cluster !in src.clusters then Merged(false, d2) else
      Merged(true, d2.(clusters := d2.clusters[context.cluster := src.clusters[context.cluster]]))
  }

  /** The sub-configuration of one context, renamed to dest. */
  ghost function Extract(dest: string, name: string, src: Kubeconfig): (r: Option<Kubeconfig>)
    ensures r.Some? ==> Single(dest, r.value)
    ensures r.Some? <==>
              SourceContext(name, src).Some? &&
              SourceContext(name, src).value.authInfo in src.authInfos &&
              SourceContext(name, src).value.cluster in src.clusters
  {
    var m := MergeContext(dest, name, EMPTY_CONFIG, src);
    if m.ok then Some(m.config) else None
  }

  /** The name that a source gives selects context x of src; without a name, x must be the only one. */
  ghost predicate Selects(src: Kubeconfig, name: string, x: string) {
    x in src.contexts && if name == "" then src.contexts.Keys == {x} else x == name
  }

  /** one is context x of src under the name dest, with its user and its endpoint. */
  ghost predicate Takes(one: Kubeconfig, dest: string, src: Kubeconfig, x: string) {
    x in src.contexts &&
    var context := src.contexts[x];
    && context.authInfo in src.authInfos && context.cluster in src.clusters
    && one.contexts == map[dest := context]
    && one.authInfos == map[context.authInfo := src.authInfos[context.authInfo]]
    && one.clusters == map[context.cluster := src.clusters[context.cluster]]
    && one.currentContext == ""
  }

  /** Which context is extracted, and what comes with it. */
  lemma {:induction false} ExtractExact(dest: string, name: string, src: Kubeconfig, one: Kubeconfig)
    ensures Extract(dest, name, src) == Some(one) <==> exists x :: Selects(src, name, x) && Takes(one, dest, src, x)
  {
    SelectsExact(name, src);
    var chosen := SourceContext(name, src);
    if chosen.Some? {
      var x :| Selects(src, name, x) && src.contexts[x] == chosen.value;
      forall y | Selects(src, name, y) ensures y == x { }
    }
  }

  lemma SelectsExact(name: string, src: Kubeconfig)
    ensures forall x :: Selects(src, name, x) ==> SourceContext(name, src) == Some(src.contexts[x])
    ensures SourceContext(name, src).Some? ==> exists x :: Selects(src, name, x)
  {
    forall x | Selects(src, name, x) ensures SourceContext(name, src) == Some(src.contexts[x]) {
      assert |src.contexts.Keys| == |src.contexts|;
      if name == "" {
        assert |{x}| == 1;
      }
    }
    if SourceContext(name, src).Some? {
      assert |src.contexts.Keys| == |src.contexts|;
      if name == "" {
        var x :| x in src.contexts;
        forall y | y in src.contexts ensures y == x { SingletonKey(src.contexts, x, y); }
        assert Selects(src, name, x);
      } else {
        assert Selects(src, name, name);
      }
    }
  }

  /** Merging a single context never fails, and only puts its entries in place. */
  lemma MergeSingle(site: Kubeconfig, c: string, one: Kubeconfig)
    requires Single(c, one)
    ensures MergeContext(c, c, site, one) == Merged(true, Overlay(site, one))
  {
    assert |one.contexts.Keys| == 1;
    var context := one.contexts[c];
    assert SourceContext(c, one) == Some(context);
    PutSingle(site.contexts, one.contexts, c);
    PutSingle(site.authInfos, one.authInfos, context.authInfo);
    PutSingle(site.clusters, one.clusters, context.cluster);
  }

  lemma PutSingle<K, V>(m: map<K, V>, one: map<K, V>, k: K)
    requires one.Keys == {k}
    ensures m[k := one[k]] == m + one
  {
  }

  lemma SingletonKey<K, V>(m: map<K, V>, a: K, b: K)
    requires |m| == 1 && a in m && b in m
    ensures a == b
  {
    assert |m.Keys - {a}| == 0;
  }

  method MergeContextAPI(dest: string, name: string, dst: Kubeconfig, src: Kubeconfig)
    returns (ok: bool, config: Kubeconfig)
    ensures Merged(ok, config) == MergeContext(dest, name, dst, src)
  {
    config := dst;
    if |src.contexts| > 1 && name == "" {
      return false, config;
    }
    var context;
    if name in src.contexts {
      context := src.contexts[name];
    } else if name == "" && |src.contexts| == 1 {
      assert |src.contexts.Keys| == 1;
      var k :| k in src.contexts;
      context := src.contexts[k];
      forall other | other in src.contexts ensures other == k {
        SingletonKey(src.contexts, other, k);
      }
    } else {
      return false, config;
    }
    config := config.(contexts := config.contexts[dest := context]);
    if context.authInfo !in src.authInfos {
      return false, config;
    }
    config := config.(authInfos := config.authInfos[context.authInfo := src.authInfos[context.authInfo]]);
    if context.cluster !in src.clusters {
      return false, config;
    }
    config := config.(clusters := config.clusters[context.cluster := src.clusters[context.cluster]]);
    return true, config;
  }

  method ExtractContext(dest: string, name: string, src: Kubeconfig) returns (r: Option<Kubeconfig>)
    ensures r == Extract(dest, name, src)
  {
    var ok, config := MergeContextAPI(dest, name, EMPTY_CONFIG, src);
    r := if ok then Some(config) else None;
  }
}
