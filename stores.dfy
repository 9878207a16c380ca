/**
 * The WMS store record, the partial representation a request body decodes
 * to, and the non-destructive merge that PUT applies.
 */
module Stores {
  import opened Wrappers

  /**
   * The mutable attributes of a WMS store. Its identity, the pair
   * (workspace, name), is the key under which the catalog files it.
   */
  datatype Store = Store(
    capabilitiesURL: string,
    enabled: bool,
    maxConnections: int,
    readTimeout: int,
    connectTimeout: int,
    useConnectionPooling: bool)

  /** The connection settings the catalog builder gives a new store. */
  datatype PoolDefaults = PoolDefaults(
    maxConnections: int,
    readTimeout: int,
    connectTimeout: int,
    useConnectionPooling: bool)

  /**
   * A decoded `wmsStore` request body: each field is present (`Some`) only
   * when the body carries its element or key.
   */
  datatype Patch = Patch(
    name: Option<string>,
    workspace: Option<string>,
    capabilitiesURL: Option<string>,
    enabled: Option<bool>,
    maxConnections: Option<int>,
    readTimeout: Option<int>,
    connectTimeout: Option<int>,
    useConnectionPooling: Option<bool>)

  /** A body that carries only a `name` element. */
  function NameOnly(name: string): Patch {
    Patch(Some(name), None, None, None, None, None, None, None)
  }

  /** True when the patch carries none of the store's attributes. */
  predicate CarriesNoAttribute(p: Patch) {
    p.capabilitiesURL.None? && p.enabled.None? && p.maxConnections.None?
    && p.readTimeout.None? && p.connectTimeout.None? && p.useConnectionPooling.None?
  }

  /** Every attribute the patch carries has the patch's value in `s`. */
  predicate Carries(p: Patch, s: Store) {
    && (p.capabilitiesURL.Some? ==> s.capabilitiesURL == p.capabilitiesURL.value)
    && (p.enabled.Some? ==> s.enabled == p.enabled.value)
    && (p.maxConnections.Some? ==> s.maxConnections == p.maxConnections.value)
    && (p.readTimeout.Some? ==> s.readTimeout == p.readTimeout.value)
    && (p.connectTimeout.Some? ==> s.connectTimeout == p.connectTimeout.value)
    && (p.useConnectionPooling.Some? ==> s.useConnectionPooling == p.useConnectionPooling.value)
  }

  /** Every attribute the patch omits has the same value in `s` as in `base`. */
  predicate Keeps(base: Store, p: Patch, s: Store) {
    && (p.capabilitiesURL.None? ==> s.capabilitiesURL == base.capabilitiesURL)
    && (p.enabled.None? ==> s.enabled == base.enabled)
    && (p.maxConnections.None? ==> s.maxConnections == base.maxConnections)
    && (p.readTimeout.None? ==> s.readTimeout == base.readTimeout)
    && (p.connectTimeout.None? ==> s.connectTimeout == base.connectTimeout)
    && (p.useConnectionPooling.None? ==> s.useConnectionPooling == base.useConnectionPooling)
  }

  /**
   * The partial update: the attributes present in the body replace the
   * stored ones, all others keep their stored value.
   */
  function Merge(base: Store, p: Patch): (r: Store)
    ensures Carries(p, r) && Keeps(base, p, r)
  {
    Store(
      p.capabilitiesURL.GetOr(base.capabilitiesURL),
      p.enabled.GetOr(base.enabled),
      p.maxConnections.GetOr(base.maxConnections),
      p.readTimeout.GetOr(base.readTimeout),
      p.connectTimeout.GetOr(base.connectTimeout),
      p.useConnectionPooling.GetOr(base.useConnectionPooling))
  }

  /** `Carries` and `Keeps` pin the merged record down completely. */
  lemma MergeIsDetermined(base: Store, p: Patch, s: Store)
    requires Carries(p, s) && Keeps(base, p, s)
    ensures s == Merge(base, p)
  {
  }

  /** A body without attributes leaves the store as it was. */
  lemma MergeWithoutAttributes(base: Store, p: Patch)
    requires CarriesNoAttribute(p)
    ensures Merge(base, p) == base
  {
  }

  /** Sending the same body twice has the effect of sending it once. */
  lemma MergeIdempotent(base: Store, p: Patch)
    ensures Merge(Merge(base, p), p) == Merge(base, p)
  {
  }

  /**
   * True when the body names a different store than the path does:
   * a `name` other than the path's name or a `workspace` other than the
   * path's workspace.
   */
  predicate ChangesIdentity(workspace: string, name: string, p: Patch): (changes: bool)
    ensures changes <==> (p.name.GetOr(name), p.workspace.GetOr(workspace)) != (name, workspace)
  {
    (p.name.Some? && p.name.value != name)
    || (p.workspace.Some? && p.workspace.value != workspace)
  }

  /**
   * The store a POST creates: enabled, with the builder's connection
   * settings, and then every attribute of the body applied on top.
   */
  function NewStore(defaults: PoolDefaults, p: Patch): (s: Store)
    requires p.capabilitiesURL.Some?
    ensures s.capabilitiesURL == p.capabilitiesURL.value
    ensures s.enabled == p.enabled.GetOr(true)
    ensures s.maxConnections == p.maxConnections.GetOr(defaults.maxConnections)
    ensures s.readTimeout == p.readTimeout.GetOr(defaults.readTimeout)
    ensures s.connectTimeout == p.connectTimeout.GetOr(defaults.connectTimeout)
    ensures s.useConnectionPooling == p.useConnectionPooling.GetOr(defaults.useConnectionPooling)
  {
    var built := Store(
      p.capabilitiesURL.value, true,
      defaults.maxConnections, defaults.readTimeout, defaults.connectTimeout,
      defaults.useConnectionPooling);
    Merge(built, p)
  }
}
