/** Shapes that cross service boundaries: candidate subgraphs and their provenance. */
module Schemas {
  import opened Wrappers
  import opened Properties

  datatype NodeType =
    | Equipment | Instrument | Line | Document | Section | Chunk | WorkOrder
    | FailureMode | FaultMode | Procedure | RegulationClause | Person

  datatype EdgeType =
    | ConnectedTo | PartOf | MentionedIn | HasFailure | FixedBy | GovernedBy | Precedes | Supersedes
    | Causes | MergedInto | FailedFix | Contradicts | CorrectedBy | SharesHeader | Feeds
    | ExhibitsFault | RespondsWith

  datatype Source = FromDocument | FromAgent | FromHuman

  type Id = string

  datatype Provenance = Provenance(
    docId: string,
    page: Option<int>,
    span: Option<(int, int)>,
    bbox: Option<(real, real, real, real)>,
    extractorVersion: string,
    confidence: real,
    source: Source)

  datatype CandidateNode = CandidateNode(
    nodeType: NodeType, surfaceForm: string, props: RawProps, resolvedId: Option<Id>)

  datatype CandidateEdge = CandidateEdge(
    edgeType: EdgeType, src: string, dst: string, provenance: Provenance, props: RawProps)

  datatype Subgraph = Subgraph(
    docId: string, contentHash: string, nodes: seq<CandidateNode>, edges: seq<CandidateEdge>)

  function SourceValue(s: Source): string {
    match s
    case FromDocument => "document"
    case FromAgent => "agent"
    case FromHuman => "human"
  }
}
