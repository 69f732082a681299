/**
 * `IPMapper`: tenant-scoped translation of virtual IP addresses into
 * physical ones, allocated lazily from the tenant's pool and cached in the
 * global mapping; rewriting of a match's addresses in place; and the
 * rewrite / un-rewrite action lists used when the physical fabric cannot
 * rewrite match fields itself.
 *
 * `Translate` is `getPhysicalIp` as a transition of the registry's value
 * view; the methods are proved against it, and the lemmas state what the
 * translation promises: lookup-or-allocate, idempotence, failure leaves no
 * mapping, tenant scoping, and that established mappings are never changed.
 */
module IPMapper {
  import opened Wrappers
  import opened OpenFlow
  import opened OVXMap

  /** How a translation ended: an existing mapping, a fresh one, or one of the caught exceptions. */
  datatype Resolution =
    | Existing(ip: Int32)
    | Allocated(ip: Int32)
    | Failed(error: MappingError)

  datatype Translation = Translation(resolution: Resolution, registry: IpRegistry)

  /**
   * `getPhysicalIp(vip.tenantId, vip.ip)` on registry `r`: the stored physical
   * address if there is one; otherwise the next address of the tenant's pool,
   * bound to `vip` in both directions. Every mapping already present is
   * kept, and a successful result is the one now recorded for `vip`.
   */
  function Translate(r: IpRegistry, vip: VirtualIp): (t: Translation)
    ensures t.resolution.Existing? <==> vip in r.physicalOf
    ensures t.resolution.Allocated? ==>
      vip.tenantId in r.pools && r.pools[vip.tenantId] != [] && t.resolution.ip == r.pools[vip.tenantId][0]
    ensures !t.resolution.Failed? ==> vip in t.registry.physicalOf && t.registry.physicalOf[vip] == t.resolution.ip
    ensures forall k :: k in r.physicalOf ==> k in t.registry.physicalOf && t.registry.physicalOf[k] == r.physicalOf[k]
  {
    if vip in r.physicalOf then Translation(Existing(r.physicalOf[vip]), r)
    else
      var (drawn, r1) := DrawIp(r, vip.tenantId);
      match drawn
      case Failure(e) => Translation(Failed(e), r1)
      case Success(pip) =>
        var (bound, r2) := Bind(r1, pip, vip);
        match bound
        case Failure(e) => Translation(Failed(e), r2)
        case Success(_) => Translation(Allocated(pip), r2)
  }

  /** What `getPhysicalIp` returns: the physical address, or the sentinel 0 once an exception was caught. */
  function ReturnedIp(t: Translation): (ip: Int32) {
    match t.resolution
    case Existing(ip) => ip
    case Allocated(ip) => ip
    case Failed(_) => 0
  }

  datatype Translations = Translations(ips: seq<Int32>, registry: IpRegistry)

  /** Successive `getPhysicalIp` calls, first to last, each on the registry the previous one left. */
  function TranslateAll(r: IpRegistry, vips: seq<VirtualIp>): (t: Translations)
    ensures |t.ips| == |vips|
    decreases |vips|
  {
    if vips == [] then Translations([], r)
    else
      var first := Translate(r, vips[0]);
      var rest := TranslateAll(first.registry, vips[1..]);
      Translations([ReturnedIp(first)] + rest.ips, rest.registry)
  }

  /** The virtual addresses `ips` of tenant `tid`. */
  function VirtualKeys(tid: TenantId, ips: seq<Int32>): (keys: seq<VirtualIp>)
    ensures |keys| == |ips|
    ensures forall i :: 0 <= i < |ips| ==> keys[i] == VirtualIp(tid, ips[i])
  {
    if ips == [] then [] else [VirtualIp(tid, ips[0])] + VirtualKeys(tid, ips[1..])
  }

  // ---------------------------------------------------------------------
  // getPhysicalIp

  /** An existing mapping is returned and nothing changes. */
  lemma TranslateExisting(r: IpRegistry, vip: VirtualIp)
    requires vip in r.physicalOf
    ensures Translate(r, vip) == Translation(Existing(r.physicalOf[vip]), r)
    ensures ReturnedIp(Translate(r, vip)) == r.physicalOf[vip]
  {
  }

  /**
   * Without a mapping, the head of the tenant's pool is drawn, recorded for
   * `vip` in both directions and returned; no other mapping changes.
   */
  lemma TranslateAllocates(r: IpRegistry, vip: VirtualIp)
    requires vip !in r.physicalOf
    requires vip.tenantId in r.pools && r.pools[vip.tenantId] != []
    requires r.pools[vip.tenantId][0] !in r.virtualOf
    ensures var pip := r.pools[vip.tenantId][0];
      var t := Translate(r, vip);
      && t.resolution == Allocated(pip)
      && ReturnedIp(t) == pip
      && t.registry.physicalOf == r.physicalOf[vip := pip]
      && t.registry.virtualOf == r.virtualOf[pip := vip]
      && t.registry.pools == r.pools[vip.tenantId := r.pools[vip.tenantId][1..]]
  {
  }

  /**
   * A translation fails exactly when there is no mapping and the tenant is
   * unknown, its pool is exhausted, or the drawn address is already bound.
   * It then returns 0 and records no mapping; only the bound-address case has
   * consumed a pool address, because `nextIP` ran before `addIP` threw.
   */
  lemma TranslateFails(r: IpRegistry, vip: VirtualIp)
    ensures var t := Translate(r, vip);
      var tid := vip.tenantId;
      && (t.resolution.Failed? <==>
            vip !in r.physicalOf
            && (tid !in r.pools || r.pools[tid] == [] || r.pools[tid][0] in r.virtualOf))
      && (t.resolution.Failed? ==>
            && ReturnedIp(t) == 0
            && t.registry.physicalOf == r.physicalOf
            && t.registry.virtualOf == r.virtualOf)
      && (t.resolution == Failed(UnknownNetwork) <==> vip !in r.physicalOf && tid !in r.pools)
      && (t.resolution == Failed(PoolExhausted) <==> vip !in r.physicalOf && tid in r.pools && r.pools[tid] == [])
      && (t.resolution in {Failed(UnknownNetwork), Failed(PoolExhausted)} ==> t.registry == r)
  {
  }

  /** A translation never changes or removes a mapping that already exists, for any key. */
  lemma TranslateKeepsMappings(r: IpRegistry, vip: VirtualIp, other: VirtualIp)
    requires other in r.physicalOf
    ensures other in Translate(r, vip).registry.physicalOf
    ensures Translate(r, vip).registry.physicalOf[other] == r.physicalOf[other]
  {
  }

  /** The two directions of the mapping stay inverse to each other. */
  lemma TranslatePreservesBijective(r: IpRegistry, vip: VirtualIp)
    requires Bijective(r)
    ensures Bijective(Translate(r, vip).registry)
  {
  }

  /**
   * Idempotence: after a successful translation, translating the same
   * (tenant, virtual address) again returns the same address and does not
   * touch the registry, so no second pool address is consumed.
   */
  lemma TranslateIdempotent(r: IpRegistry, vip: VirtualIp)
    requires !Translate(r, vip).resolution.Failed?
    ensures var t := Translate(r, vip);
      Translate(t.registry, vip) == Translation(Existing(ReturnedIp(t)), t.registry)
  {
  }

  /**
   * Tenant scoping: with the registry consistent, a lookup of raw address
   * `x` for one tenant never yields the physical address that another
   * tenant's entry for the same raw `x` holds.
   */
  lemma TenantScoped(r: IpRegistry, a: TenantId, b: TenantId, x: Int32)
    requires Bijective(r)
    requires a != b && VirtualIp(b, x) in r.physicalOf
    ensures var t := Translate(r, VirtualIp(a, x));
      !t.resolution.Failed? ==> t.resolution.ip != r.physicalOf[VirtualIp(b, x)]
  {
  }

  /**
   * Mappings live for the lifetime of the registry: whatever translations
   * follow, for any tenants and addresses, an existing mapping keeps its
   * physical address.
   */
  lemma {:induction false} MappingsPersist(r: IpRegistry, vips: seq<VirtualIp>, key: VirtualIp)
    requires key in r.physicalOf
    ensures var r' := TranslateAll(r, vips).registry;
      key in r'.physicalOf && r'.physicalOf[key] == r.physicalOf[key]
    decreases |vips|
  {
    if vips != [] {
      var first := Translate(r, vips[0]);
      TranslateKeepsMappings(r, vips[0], key);
      MappingsPersist(first.registry, vips[1..], key);
    }
  }

  /**
   * Idempotence across interleaved traffic: once `vip` has been translated,
   * any further translations leave it translating to the same address, with
   * no change to the registry.
   */
  lemma IdempotentAfterAnyTranslations(r: IpRegistry, vip: VirtualIp, between: seq<VirtualIp>)
    requires !Translate(r, vip).resolution.Failed?
    ensures var t := Translate(r, vip);
      var later := TranslateAll(t.registry, between).registry;
      Translate(later, vip) == Translation(Existing(ReturnedIp(t)), later)
  {
    var t := Translate(r, vip);
    assert vip in t.registry.physicalOf && t.registry.physicalOf[vip] == ReturnedIp(t);
    MappingsPersist(t.registry, between, vip);
  }

  /**
   * `getPhysicalIp(tenantId, virtualIP)` on the registry `ovxMap`; the caught
   * exceptions become the sentinel 0.
   */
  method GetPhysicalIp(ovxMap: Mappable, tenantId: TenantId, virtualIp: Int32) returns (pip: Int32)
    modifies ovxMap`physicalIps, ovxMap`virtualIps, ovxMap`pools
    ensures var t := Translate(old(ovxMap.Ips()), VirtualIp(tenantId, virtualIp));
      pip == ReturnedIp(t) && ovxMap.Ips() == t.registry
  {
    var vip := VirtualIp(tenantId, virtualIp);
    if vip in ovxMap.physicalIps {
      return ovxMap.physicalIps[vip];
    }
    var drawn := ovxMap.NextIp(tenantId);
    if drawn.Failure? {
      return 0;
    }
    var added := ovxMap.AddIp(drawn.value, vip);
    if added.Failure? {
      return 0;
    }
    pip := drawn.value;
  }

  // ---------------------------------------------------------------------
  // rewriteMatch

  /** Two successive translations, the second on the registry the first left. */
  lemma TranslateAllPair(r: IpRegistry, a: VirtualIp, b: VirtualIp)
    ensures var t1 := Translate(r, a);
      var t2 := Translate(t1.registry, b);
      TranslateAll(r, [a, b]) == Translations([ReturnedIp(t1), ReturnedIp(t2)], t2.registry)
  {
    var t1 := Translate(r, a);
    var t2 := Translate(t1.registry, b);
    assert TranslateAll(t2.registry, []) == Translations([], t2.registry);
    assert [b][1..] == [];
    assert TranslateAll(t1.registry, [b]) == Translations([ReturnedIp(t2)], t2.registry);
    assert [a, b][1..] == [b];
  }

  /**
   * `rewriteMatch`: the source and then the destination address of `m` are
   * replaced by their translations, whatever the wildcard flags say; the
   * frame leaves the wildcards (and everything else) untouched.
   */
  method RewriteMatch(ovxMap: Mappable, tenantId: TenantId, m: Match)
    modifies ovxMap`physicalIps, ovxMap`virtualIps, ovxMap`pools
    modifies m`networkSource, m`networkDestination
    ensures var t := TranslateAll(old(ovxMap.Ips()),
                                  [VirtualIp(tenantId, old(m.networkSource)), VirtualIp(tenantId, old(m.networkDestination))]);
      && m.networkSource == t.ips[0]
      && m.networkDestination == t.ips[1]
      && ovxMap.Ips() == t.registry
  {
    ghost var r0 := ovxMap.Ips();
    ghost var src, dst := m.networkSource, m.networkDestination;
    var ip := GetPhysicalIp(ovxMap, tenantId, m.networkSource);
    m.networkSource := ip;
    ip := GetPhysicalIp(ovxMap, tenantId, m.networkDestination);
    m.networkDestination := ip;
    TranslateAllPair(r0, VirtualIp(tenantId, src), VirtualIp(tenantId, dst));
  }

  /** If source and destination are the same address and the first translation succeeds, both become the same physical address. */
  lemma RewriteSameAddress(r: IpRegistry, tenantId: TenantId, x: Int32)
    requires !Translate(r, VirtualIp(tenantId, x)).resolution.Failed?
    ensures var t := TranslateAll(r, [VirtualIp(tenantId, x), VirtualIp(tenantId, x)]);
      t.ips[0] == t.ips[1]
  {
  }

  // ---------------------------------------------------------------------
  // prependRewriteActions / prependUnRewriteActions

  /**
   * The shape both action lists share: any earlier action sets the source
   * and any later one the destination (so at most one of each, source
   * first); the list starts with a set-source action exactly when NW_SRC is
   * not wildcarded and ends with a set-destination action exactly when
   * NW_DST is not wildcarded.
   */
  ghost predicate Gated(actions: seq<Action>, srcWildcarded: bool, dstWildcarded: bool) {
    && (forall i, j :: 0 <= i < j < |actions| ==> actions[i].SetNwSrc? && actions[j].SetNwDst?)
    && (!srcWildcarded <==> |actions| > 0 && actions[0].SetNwSrc?)
    && (!dstWildcarded <==> |actions| > 0 && actions[|actions| - 1].SetNwDst?)
  }

  /** No action both sets the source and sets the destination. */
  lemma ActionKinds(a: Action)
    ensures a.SetNwSrc? != a.SetNwDst?
  {
  }

  /**
   * A gated list holds one action per field that is not wildcarded, so 0 to
   * 2 of them, and which action stands at each position is fixed by the flags.
   */
  lemma GatedShape(actions: seq<Action>, srcWildcarded: bool, dstWildcarded: bool)
    requires Gated(actions, srcWildcarded, dstWildcarded)
    ensures |actions| == (if srcWildcarded then 0 else 1) + (if dstWildcarded then 0 else 1)
    ensures forall i :: 0 <= i < |actions| ==> (actions[i].SetNwSrc? <==> i == 0 && !srcWildcarded)
  {
    if |actions| > 2 {
      ActionKinds(actions[1]);
      assert false;
    }
  }

  /** The gating, the order and the carried addresses determine an action list completely. */
  lemma GatedUnique(a: seq<Action>, b: seq<Action>, srcWildcarded: bool, dstWildcarded: bool)
    requires Gated(a, srcWildcarded, dstWildcarded) && Gated(b, srcWildcarded, dstWildcarded)
    requires Addresses(a) == Addresses(b)
    ensures a == b
  {
  }

  /**
   * `prependUnRewriteActions`: the gated list carrying the match's own
   * addresses. It reads only the match, so no registry or pool changes.
   */
  function PrependUnRewriteActions(m: Match): (actions: seq<Action>)
    reads m
    ensures Gated(actions, m.wildcardNwSrc, m.wildcardNwDst)
    ensures forall i :: 0 <= i < |actions| ==>
      actions[i] == SetNwSrc(m.networkSource) || actions[i] == SetNwDst(m.networkDestination)
  {
    (if !m.wildcardNwSrc then [SetNwSrc(m.networkSource)] else [])
      + (if !m.wildcardNwDst then [SetNwDst(m.networkDestination)] else [])
  }

  /**
   * `prependRewriteActions`: the same gated shape as the un-rewrite list of
   * `m`, each action carrying the translation of that list's address, with
   * the translations done in list order (source before destination).
   */
  method PrependRewriteActions(ovxMap: Mappable, tenantId: TenantId, m: Match) returns (actions: seq<Action>)
    modifies ovxMap`physicalIps, ovxMap`virtualIps, ovxMap`pools
    ensures Gated(actions, m.wildcardNwSrc, m.wildcardNwDst)
    ensures var t := TranslateAll(old(ovxMap.Ips()), VirtualKeys(tenantId, Addresses(PrependUnRewriteActions(m))));
      Addresses(actions) == t.ips && ovxMap.Ips() == t.registry
    ensures forall i :: 0 <= i < |actions| && actions[i].SetNwSrc? ==>
      actions[i].networkAddress == ReturnedIp(Translate(old(ovxMap.Ips()), VirtualIp(tenantId, m.networkSource)))
  {
    ghost var r0 := ovxMap.Ips();
    ghost var keys := VirtualKeys(tenantId, Addresses(PrependUnRewriteActions(m)));
    actions := [];
    if !m.wildcardNwSrc {
      var ip := GetPhysicalIp(ovxMap, tenantId, m.networkSource);
      actions := actions + [SetNwSrc(ip)];
    }
    ghost var r1 := ovxMap.Ips();
    if !m.wildcardNwDst {
      var ip := GetPhysicalIp(ovxMap, tenantId, m.networkDestination);
      actions := actions + [SetNwDst(ip)];
    }
    if |keys| == 2 {
      TranslateAllPair(r0, keys[0], keys[1]);
    } else if |keys| == 1 {
      assert keys[1..] == [];
    }
  }
}
