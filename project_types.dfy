/**
 * The documents held in the JSON columns of a project row (`specifications`,
 * `images`, `documents`, `notes`). A key that is absent or `null` is `None`.
 */
module ProjectTypes {
  import opened Wrappers
  import JsValues

  /** An ISO-8601 timestamp string, as the documents store it. */
  type Timestamp = string

  type UserId = int

  /** What `new Date(text)` yields for a stored date string: an instant in milliseconds, or an invalid date. */
  datatype Instant = At(ms: int) | InvalidDate

  /** `a <= b` on JavaScript dates: false as soon as one side is an invalid date. */
  predicate NotLaterThan(a: Instant, b: int) {
    a.At? && a.ms <= b
  }

  // ----- specifications -----

  datatype Dimensions = Dimensions(length: real, width: real, shallowDepth: real, deepDepth: real, volume: Option<real>)

  datatype Materials = Materials(poolShell: string, finish: string, coping: string, decking: string)

  /** One entry of the `equipment` object; the pump has no `type`. */
  datatype EquipmentItem = EquipmentItem(itemType: Option<string>, brand: Option<string>, model: Option<string>)

  /** A value of the `waterFeatures` object: a count (`waterfalls`, `jets`, ...) or a flag (`spa`, `slide`, ...). */
  datatype FeatureValue = Count(n: real) | Flag(b: bool)

  datatype Safety = Safety(fence: Option<bool>, alarm: Option<bool>, cover: Option<bool>,
                           handrails: Option<bool>, steps: Option<bool>, compliance: Option<seq<string>>)

  datatype PoolSpecifications = PoolSpecifications(
    dimensions: Option<Dimensions>,
    materials: Option<Materials>,
    equipment: Option<map<string, EquipmentItem>>,
    waterFeatures: Option<map<string, FeatureValue>>,
    safety: Option<Safety>,
    environmental: Option<map<string, bool>>)

  const NoSpecifications := PoolSpecifications(None, None, None, None, None, None)

  // ----- images -----

  /** The declared categories, plus `Gallery`, which the image route stores when none is given. */
  datatype ImageCategory = Overview | Construction | Finished | Detail | Before | After | Gallery

  datatype GalleryImage = GalleryImage(id: string, url: string, alt: string, caption: Option<string>,
                                       category: ImageCategory, order: int, uploadedAt: Timestamp, uploadedBy: UserId)

  datatype BeforeAfterPair = BeforeAfterPair(id: string, beforeUrl: string, afterUrl: string, caption: Option<string>, order: int)

  datatype ConstructionPhase = Excavation | Structure | Plumbing | Electrical | Finishing | Landscaping

  datatype ProgressImage = ProgressImage(id: string, url: string, caption: string, phase: ConstructionPhase,
                                         date: Timestamp, order: int)

  datatype PlanKind = Rendering3d | Blueprint | Sketch | Concept

  datatype Plan = Plan(id: string, url: string, kind: PlanKind, description: Option<string>, order: int)

  datatype ProjectImages = ProjectImages(
    gallery: Option<seq<GalleryImage>>,
    beforeAfter: Option<seq<BeforeAfterPair>>,
    progress: Option<seq<ProgressImage>>,
    plans: Option<seq<Plan>>)

  const NoImages := ProjectImages(None, None, None, None)

  // ----- documents -----

  datatype DocumentCategory = Contracts | Permits | Technical | Financial

  /** The document helpers take `any`; a document is its `id` and its other properties. */
  datatype Document = Document(id: string, properties: map<string, JsValues.Value>)

  datatype ProjectDocuments = ProjectDocuments(
    contracts: Option<seq<Document>>,
    permits: Option<seq<Document>>,
    technical: Option<seq<Document>>,
    financial: Option<seq<Document>>)

  const NoDocuments := ProjectDocuments(None, None, None, None)

  /** `documents[category]`. */
  function DocumentsIn(d: ProjectDocuments, category: DocumentCategory): Option<seq<Document>> {
    match category
    case Contracts => d.contracts
    case Permits => d.permits
    case Technical => d.technical
    case Financial => d.financial
  }

  /** `{ ...d, [category]: list }`. */
  function WithDocuments(d: ProjectDocuments, category: DocumentCategory, list: Option<seq<Document>>): (r: ProjectDocuments)
    ensures DocumentsIn(r, category) == list
    ensures forall c :: c != category ==> DocumentsIn(r, c) == DocumentsIn(d, c)
  {
    match category
    case Contracts => d.(contracts := list)
    case Permits => d.(permits := list)
    case Technical => d.(technical := list)
    case Financial => d.(financial := list)
  }

  // ----- notes -----

  datatype NoteCategory = GeneralNote | TechnicalNote | ClientCommunicationNote | IssueNote | MilestoneNote

  datatype Priority = Low | Medium | High | Urgent

  datatype InternalNote = InternalNote(id: string, content: string, category: NoteCategory, priority: Priority,
                                       createdAt: Timestamp, createdBy: UserId, updatedAt: Option<Timestamp>,
                                       updatedBy: Option<UserId>, tags: Option<seq<string>>)

  datatype Channel = Email | Phone | Meeting | SiteVisit | TextMessage

  datatype Direction = Inbound | Outbound

  datatype Communication = Communication(id: string, channel: Channel, subject: Option<string>, content: string,
                                         direction: Direction, clientName: Option<string>, clientEmail: Option<string>,
                                         clientPhone: Option<string>, createdAt: Timestamp, createdBy: UserId,
                                         attachments: Option<seq<string>>)

  datatype MilestoneStatus = Pending | MilestoneInProgress | Completed | Delayed | Cancelled

  datatype Milestone = Milestone(id: string, title: string, description: Option<string>, plannedDate: Instant,
                                 actualDate: Option<Timestamp>, status: MilestoneStatus,
                                 dependencies: Option<seq<string>>, createdAt: Timestamp, createdBy: UserId)

  datatype Severity = Low | Medium | High | Critical

  datatype IssueStatus = Open | IssueInProgress | Resolved | Closed

  datatype Issue = Issue(id: string, title: string, description: string, severity: Severity, status: IssueStatus,
                         reportedAt: Timestamp, reportedBy: UserId, assignedTo: Option<UserId>,
                         resolvedAt: Option<Timestamp>, resolvedBy: Option<UserId>, resolution: Option<string>,
                         tags: Option<seq<string>>)

  /** An issue still needing work: status `open` or `in_progress`. */
  predicate IsActive(i: Issue) {
    i.status == Open || i.status == IssueInProgress
  }

  datatype ProjectNotes = ProjectNotes(
    internal: Option<seq<InternalNote>>,
    communication: Option<seq<Communication>>,
    milestones: Option<seq<Milestone>>,
    issues: Option<seq<Issue>>)

  const NoNotes := ProjectNotes(None, None, None, None)
}
