/** Which registry resources an organization can see: its own and those shared with it. */
module Registry {
  import opened Wrappers

  datatype ResourceKind = ToolKind | NodeKind

  datatype Share = Share(owner: string, target: string, kind: ResourceKind, resource: string)

  /** Owned, or shared one by one, or shared as the whole registry of its owner. */
  predicate VisibleTo(shares: set<Share>, owner: string, target: string, kind: ResourceKind, resource: string) {
    owner == target
    || Share(owner, target, kind, resource) in shares
    || Share(owner, target, kind, "*") in shares
  }

  /** The organization owns the resource, or its owner shared it, or shared everything of the kind. */
  ghost predicate Shared(shares: set<Share>, owner: string, org: string, kind: ResourceKind, resource: string) {
    owner == org || exists name :: name in {resource, "*"} && Share(owner, org, kind, name) in shares
  }

  lemma VisibleMeansShared(shares: set<Share>, owner: string, org: string, kind: ResourceKind, resource: string)
    ensures VisibleTo(shares, owner, org, kind, resource) <==> Shared(shares, owner, org, kind, resource)
  {
    if VisibleTo(shares, owner, org, kind, resource) && owner != org {
      assert Share(owner, org, kind, resource) in shares || Share(owner, org, kind, "*") in shares;
    }
  }
}
