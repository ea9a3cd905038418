/** Choice of a compute node: the privacy class gates every node before any other choice. */
module Placement {
  import opened Wrappers
  import opened Calendar
  import opened Registry
  import Timestamps

  datatype Privacy = Public | LowSensitive | RepoSensitive | SecretSensitive
  datatype Tier = LocalOnly | PrivateRented | External

  /** A registered node. `lastHealth` is absent when the stored text is missing, malformed or
      without an offset; an empty allowedPrivacy column means no restriction. */
  datatype Node = Node(id: string, owner: string, tier: Tier, airgapped: bool, healthy: bool,
                       endpoint: string, model: string, monitored: bool, lastHealth: Option<Instant>,
                       allowedPrivacy: Option<set<Privacy>>)

  /** The request: what is to be placed, and who may see which nodes. */
  datatype Request = Request(privacy: Privacy, allowlist: set<string>, model: Option<string>, maxAge: int,
                             org: string, shares: set<Share>, now: Instant)

  datatype PlacementError = BadHealthAge | PlacementDenied

  /** The tiers that a privacy class may use, best first. */
  function EligibleTiers(privacy: Privacy): (tiers: seq<Tier>)
    ensures LocalOnly in tiers && PrivateRented in tiers && (External in tiers <==> privacy != RepoSensitive)
    ensures forall i, j :: 0 <= i < j < |tiers| ==> Rank(tiers[i]) < Rank(tiers[j])
  {
    match privacy
    case SecretSensitive => [LocalOnly, PrivateRented, External]
    case RepoSensitive => [LocalOnly, PrivateRented]
    case _ => [LocalOnly, PrivateRented, External]
  }

  function Rank(tier: Tier): int {
    match tier case LocalOnly => 0 case PrivateRented => 1 case External => 2
  }

  /** Monitored nodes need a recent report; nodes nobody monitors stand by their healthy flag. */
  predicate Fresh(node: Node, req: Request) {
    node.monitored ==> node.lastHealth.Some? && req.now <= node.lastHealth.value + req.maxAge * SECOND
  }

  predicate Usable(node: Node, req: Request) {
    && node.healthy
    && VisibleTo(req.shares, node.owner, req.org, NodeKind, node.id)
    && node.endpoint != "" && node.model != ""
    && (req.model.Some? ==> node.model == req.model.value)
    && Fresh(node, req)
  }

  /** The node may see data of this class. */
  predicate Cleared(node: Node, req: Request) {
    && (node.allowedPrivacy.Some? ==> req.privacy in node.allowedPrivacy.value)
    && (req.privacy == RepoSensitive ==> node.tier != External)
    && (req.privacy == SecretSensitive ==> node.id in req.allowlist || (node.tier == LocalOnly && node.airgapped))
  }

  predicate Eligible(node: Node, req: Request) { Usable(node, req) && Cleared(node, req) }

  /** Better tier, or the same tier and an earlier node id. */
  predicate Preferred(a: Node, b: Node) {
    Rank(a.tier) < Rank(b.tier) || (a.tier == b.tier && Timestamps.Before(a.id, b.id))
  }

  ghost predicate Best(rows: seq<Node>, req: Request, node: Node) {
    node in rows && Eligible(node, req)
    && forall other :: other in rows && Eligible(other, req) && other != node ==> Preferred(node, other)
  }

  /** The columns of a node that may be used: it is healthy, the organization's or shared with it,
      can be reached, runs the model that was asked for, was heard of recently if anybody watches it,
      and may see data of this class. */
  lemma EligibleExactly(node: Node, req: Request)
    ensures Eligible(node, req) <==>
              && node.healthy && Shared(req.shares, node.owner, req.org, NodeKind, node.id)
              && node.endpoint != "" && node.model != "" && (req.model == None || req.model == Some(node.model))
              && (!node.monitored || (node.lastHealth.Some? && req.now - node.lastHealth.value <= req.maxAge * 1_000_000))
              && (node.allowedPrivacy == None || req.privacy in node.allowedPrivacy.value)
              && match req.privacy
                 case SecretSensitive => node.id in req.allowlist || (node.tier == LocalOnly && node.airgapped)
                 case RepoSensitive => node.tier == LocalOnly || node.tier == PrivateRented
                 case _ => true
  {
    VisibleMeansShared(req.shares, node.owner, req.org, NodeKind, node.id);
  }

  /** A local node is taken before a rented one, that before an external one, and among those of one
      tier the one with the earliest id. */
  lemma BestExactly(rows: seq<Node>, req: Request, node: Node)
    ensures Best(rows, req, node) <==>
              && node in rows && Eligible(node, req)
              && forall other :: other in rows && Eligible(other, req) && other != node ==>
                   match node.tier
                   case LocalOnly => other.tier == LocalOnly ==> Timestamps.Before(node.id, other.id)
                   case PrivateRented =>
                     other.tier == External || (other.tier == PrivateRented && Timestamps.Before(node.id, other.id))
                   case External => other.tier == External && Timestamps.Before(node.id, other.id)
  {
  }

  /** The table as the query lists it. */
  ghost predicate ById(rows: seq<Node>) {
    forall i, j :: 0 <= i < j < |rows| ==> Timestamps.Before(rows[i].id, rows[j].id)
  }

  /** The search over tiers and nodes finds the best eligible node, and is denied exactly when no
      node is eligible. Repository work never lands on an external tier; secret work lands only on
      allowlisted or local air-gapped nodes. */
  method Place(rows: seq<Node>, req: Request) returns (r: Result<string, PlacementError>)
    requires ById(rows)
    ensures req.maxAge < 1 <==> r == Failure(BadHealthAge)
    ensures req.maxAge >= 1 ==> (r == Failure(PlacementDenied) <==> forall node :: node in rows ==> !Eligible(node, req))
    ensures r.Success? ==> exists node :: Best(rows, req, node) && node.id == r.value
    ensures r.Success? && req.privacy == RepoSensitive ==>
              exists node :: node in rows && node.id == r.value && node.tier != External
    ensures r.Success? && req.privacy == SecretSensitive ==>
              r.value in req.allowlist || exists node :: node in rows && node.id == r.value && node.tier == LocalOnly && node.airgapped
  {
    if req.maxAge < 1 {
      return Failure(BadHealthAge);
    }
    var cutoff := req.now - req.maxAge * SECOND;
    var visible: seq<Node> := [];
    for i := 0 to |rows|
      invariant ById(visible)
      invariant forall node :: node in visible ==>
                  node in rows[..i] && node.healthy && VisibleTo(req.shares, node.owner, req.org, NodeKind, node.id)
      invariant forall node :: node in rows[..i] && Usable(node, req) ==> node in visible
    {
      assert rows[..i + 1] == rows[..i] + [rows[i]];
      if rows[i].healthy && VisibleTo(req.shares, rows[i].owner, req.org, NodeKind, rows[i].id) {
        visible := visible + [rows[i]];
      }
    }
    assert rows[..|rows|] == rows;
    var tiers := EligibleTiers(req.privacy);
    for t := 0 to |tiers|
      invariant forall node :: node in visible && Eligible(node, req) ==> node.tier !in tiers[..t]
    {
      for k := 0 to |visible|
        invariant forall node :: node in visible[..k] && Eligible(node, req) ==> node.tier != tiers[t]
      {
        var node := visible[k];
        assert visible[..k + 1] == visible[..k] + [node];
        if node.tier != tiers[t] {
          continue;
        }
        if node.endpoint == "" || node.model == "" {
          continue;
        }
        if req.model.Some? && node.model != req.model.value {
          continue;
        }
        if node.monitored {
          if node.lastHealth.None? || node.lastHealth.value < cutoff {
            continue;
          }
        }
        if node.allowedPrivacy.Some? && req.privacy !in node.allowedPrivacy.value {
          continue;
        }
        if req.privacy == SecretSensitive && !(node.id in req.allowlist || (node.tier == LocalOnly && node.airgapped)) {
          continue;
        }
        forall other | other in rows && Eligible(other, req) && other != node ensures Preferred(node, other) {
          var j :| 0 <= j < |visible| && visible[j] == other;
          FirstFoundIsPreferred(visible, req, t, k, j);
        }
        assert Best(rows, req, node);
        return Success(node.id);
      }
      assert visible[..|visible|] == visible;
      assert tiers[..t + 1] == tiers[..t] + [tiers[t]];
    }
    assert tiers[..|tiers|] == tiers;
    forall node | node in rows ensures !Eligible(node, req) {
      if Eligible(node, req) {
        var u := ClearedTier(node, req);
      }
    }
    return Failure(PlacementDenied);
  }

  /** A cleared node sits on one of the tiers that are tried, and its rank is its turn. */
  lemma ClearedTier(node: Node, req: Request) returns (t: nat)
    requires Cleared(node, req)
    ensures t < |EligibleTiers(req.privacy)| && EligibleTiers(req.privacy)[t] == node.tier && t == Rank(node.tier)
  {
    t := Rank(node.tier);
  }

  /** The first eligible node of the first tier that has one is preferred to another. */
  lemma FirstFoundIsPreferred(visible: seq<Node>, req: Request, t: nat, k: nat, j: nat)
    requires t < |EligibleTiers(req.privacy)| && k < |visible| && j < |visible| && j != k
    requires ById(visible) && Eligible(visible[j], req) && visible[k].tier == EligibleTiers(req.privacy)[t]
    requires forall node :: node in visible && Eligible(node, req) ==> node.tier !in EligibleTiers(req.privacy)[..t]
    requires forall node :: node in visible[..k] && Eligible(node, req) ==> node.tier != EligibleTiers(req.privacy)[t]
    ensures Preferred(visible[k], visible[j])
  {
    var tiers := EligibleTiers(req.privacy);
    var u := ClearedTier(visible[j], req);
    assert forall v :: 0 <= v < t ==> tiers[..t][v] == tiers[v];
    assert forall i :: 0 <= i < k ==> visible[..k][i] == visible[i];
  }

  /** There is at most one best node, so the table and the request fix the answer. */
  lemma BestIsUnique(rows: seq<Node>, req: Request, a: Node, b: Node)
    requires Best(rows, req, a) && Best(rows, req, b)
    ensures a == b
  {
    Timestamps.BeforeIsTotal(a.id, b.id, a.id);
  }
}
