/** The canonical records of the topology (domain/claim.py, domain/edge.py, domain/confidence.py,
    domain/assessment.py, domain/repository.py, domain/artifact.py, domain/capability.py). */
module Domain {
  import opened Wrappers

  datatype Level = Low | Medium | High
  datatype Strength = NoStrength | Weak | Corroborated | Direct
  datatype Derivation = Declared | Deterministic | CrossRecord | Heuristic | ModelAssisted | UnknownDerivation
  datatype Authority = UnknownAuthority | Candidate | Derived | ValidatedMachine | Source
  datatype Completeness = Partial | Sufficient | Complete
  datatype ConflictStatus = NoConflict | Possible | Confirmed

  datatype Confidence = Confidence(
    level: Level, strength: Strength, derivation: Derivation, authority: Authority, completeness: Completeness, conflictStatus: ConflictStatus)

  function LevelRank(l: Level): nat { match l case Low => 0 case Medium => 1 case High => 2 }

  function AuthorityRank(a: Authority): nat {
    match a case UnknownAuthority => 0 case Candidate => 1 case Derived => 2 case ValidatedMachine => 3 case Source => 4
  }

  datatype Support = SetValued | SingleValued | Auxiliary | Unsupported
  datatype Cardinality = Many | One | Unstated

  datatype Claim = Claim(
    claimId: string, subject: string, predicat: string, object_: string, assertionIds: seq<string>, evidenceRefs: seq<string>,
    confidence: Confidence, authority: Authority, cardinality: Cardinality, support: Support, conflictStatus: ConflictStatus,
    conflictIds: seq<string>, projected: bool, projectedIds: seq<string>)

  datatype Conflict = Conflict(conflictId: string, subject: string, field: string, values: seq<string>, evidenceRefs: seq<string>, blocking: bool)

  datatype Unknown = Unknown(unknownId: string, subject: string, field: Option<string>, evidenceRefs: seq<string>)

  /** An evidence record, with the statement its value names, if any. */
  datatype Evidence = Evidence(
    evidenceId: string, subject: string, field: Option<string>, stage: string, class_: string, assertionId: Option<string>, packetId: string)

  datatype EdgeType =
    | Contains | DependsOn | Implements | Exposes | ValidatedBy | GovernedBy | OwnedBy | DocumentedBy | Produces | Consumes | DerivedFrom
    | Supersedes | RoutesTo | PublishesTo | MemberOf | DuplicateOf | BlockedBy | References

  function TypeName(t: EdgeType): string {
    match t
    case Contains => "CONTAINS"
    case DependsOn => "DEPENDS_ON"
    case Implements => "IMPLEMENTS"
    case Exposes => "EXPOSES"
    case ValidatedBy => "VALIDATED_BY"
    case GovernedBy => "GOVERNED_BY"
    case OwnedBy => "OWNED_BY"
    case DocumentedBy => "DOCUMENTED_BY"
    case Produces => "PRODUCES"
    case Consumes => "CONSUMES"
    case DerivedFrom => "DERIVED_FROM"
    case Supersedes => "SUPERSEDES"
    case RoutesTo => "ROUTES_TO"
    case PublishesTo => "PUBLISHES_TO"
    case MemberOf => "MEMBER_OF"
    case DuplicateOf => "DUPLICATE_OF"
    case BlockedBy => "BLOCKED_BY"
    case References => "REFERENCES"
  }

  datatype Direction = Outbound | Inbound | Bidirectional

  datatype Property = Word(word: string) | Count(count: nat) | Flag(on: bool)

  datatype Edge = Edge(
    edgeId: string, source: string, target: string, edgeType: EdgeType, direction: Direction, properties: map<string, Property>,
    evidenceRefs: seq<string>, confidence: Confidence)

  datatype Node = Node(entityId: string, kind: string, properties: map<string, Property>, evidenceRefs: seq<string>, confidence: Confidence)

  datatype Capability = Capability(
    capabilityId: string, name: string, implementedBy: seq<string>, exposedBy: seq<string>, validatedBy: seq<string>, evidenceRefs: seq<string>,
    confidence: Confidence)

  datatype Artifact = Artifact(artifactId: string, repositoryId: string, sourcePath: string, contentHash: string, capabilities: seq<string>)

  /** A repository; `facts` holds its other set-valued fields by name. */
  datatype Repository = Repository(
    repositoryId: string, name: string, revision: string, upstream: seq<string>, downstream: seq<string>, unresolved: seq<string>,
    owners: seq<string>, evidenceRefs: seq<string>, facts: map<string, seq<string>>)

  function ClaimKey(x: Claim): string { x.claimId }
  function ConflictKey(x: Conflict): string { x.conflictId }
  function UnknownKey(x: Unknown): string { x.unknownId }
  function EdgeKey(x: Edge): string { x.edgeId }
  function CapabilityKey(x: Capability): string { x.capabilityId }
}
