/**
 * `ProjectDataManager`: copy-on-write transforms of a project's JSON columns.
 * Every helper builds a new document and leaves its argument untouched; an absent
 * (`null`) document is `None`.
 */
module ProjectDataManager {
  import opened Wrappers
  import opened Seqs
  import opened ProjectTypes

  // ----- specifications -----

  /** `createSpecifications`: copies each of the six groups of `data` explicitly, which changes nothing. */
  function CreateSpecifications(data: PoolSpecifications): (r: PoolSpecifications)
    ensures r == data
  {
    PoolSpecifications(data.dimensions, data.materials, data.equipment, data.waterFeatures, data.safety, data.environmental)
  }

  /** `{ ...current, ...updates }`: a shallow merge in which every group present in `updates` wins. */
  function UpdateSpecifications(current: Option<PoolSpecifications>, updates: PoolSpecifications): (r: PoolSpecifications)
    ensures var base := current.GetOr(NoSpecifications);
      && r.dimensions == (if updates.dimensions.Some? then updates.dimensions else base.dimensions)
      && r.materials == (if updates.materials.Some? then updates.materials else base.materials)
      && r.equipment == (if updates.equipment.Some? then updates.equipment else base.equipment)
      && r.waterFeatures == (if updates.waterFeatures.Some? then updates.waterFeatures else base.waterFeatures)
      && r.safety == (if updates.safety.Some? then updates.safety else base.safety)
      && r.environmental == (if updates.environmental.Some? then updates.environmental else base.environmental)
  {
    var base := current.GetOr(NoSpecifications);
    PoolSpecifications(
      Override(base.dimensions, updates.dimensions),
      Override(base.materials, updates.materials),
      Override(base.equipment, updates.equipment),
      Override(base.waterFeatures, updates.waterFeatures),
      Override(base.safety, updates.safety),
      Override(base.environmental, updates.environmental))
  }

  /** One key of an object spread: the later object's key wins when it is present. */
  function Override<T>(earlier: Option<T>, later: Option<T>): Option<T> {
    if later.Some? then later else earlier
  }

  /** Creating specifications is the same as merging them into no specifications at all. */
  lemma CreateIsUpdateOfNothing(data: PoolSpecifications)
    ensures CreateSpecifications(data) == data
    ensures UpdateSpecifications(None, data) == data
  {
  }

  /** Merging is idempotent, and two merges in a row are one merge with the combined updates. */
  lemma UpdateSpecificationsComposes(current: Option<PoolSpecifications>, u1: PoolSpecifications, u2: PoolSpecifications)
    ensures UpdateSpecifications(Some(UpdateSpecifications(current, u1)), u1) == UpdateSpecifications(current, u1)
    ensures UpdateSpecifications(Some(UpdateSpecifications(current, u1)), u2)
         == UpdateSpecifications(current, UpdateSpecifications(Some(u1), u2))
  {
  }

  // ----- images -----

  /** `addImageToGallery`: append `image` to `gallery`, creating the document or the list when absent. */
  function AddImageToGallery(current: Option<ProjectImages>, image: GalleryImage): (r: ProjectImages)
    ensures var base := current.GetOr(NoImages);
      && Appended(base.gallery, r.gallery, image)
      && r.beforeAfter == base.beforeAfter && r.progress == base.progress && r.plans == base.plans
  {
    var images := current.GetOr(ProjectImages(Some([]), None, None, None));
    images.(gallery := Some(ListOf(images.gallery) + [image]))
  }

  /**
   * `removeImageFromGallery`: drop every gallery entry whose id is `imageId`. Without a
   * gallery the argument comes back as it was; when nothing is left in the gallery the whole
   * document becomes `null`, whatever the other lists hold.
   */
  function RemoveImageFromGallery(current: Option<ProjectImages>, imageId: string): (r: Option<ProjectImages>)
    ensures current.None? || current.value.gallery.None? ==> r == current
    ensures current.Some? && current.value.gallery.Some? ==>
      var g := current.value.gallery.value;
      && (r.None? <==> forall i :: 0 <= i < |g| ==> g[i].id == imageId)
      && (r.Some? ==>
            && r.value.gallery.Some?
            && (forall i :: 0 <= i < |r.value.gallery.value| ==> r.value.gallery.value[i].id != imageId)
            && (forall i :: 0 <= i < |g| && g[i].id != imageId ==> g[i] in r.value.gallery.value)
            && (forall i :: 0 <= i < |g| && g[i].id != imageId ==>
                  multiset(r.value.gallery.value)[g[i]] == multiset(g)[g[i]])
            && SubsequenceOf(r.value.gallery.value, g)
            && r.value.beforeAfter == current.value.beforeAfter
            && r.value.progress == current.value.progress
            && r.value.plans == current.value.plans)
  {
    if current.None? || current.value.gallery.None? then current
    else
      var g := current.value.gallery.value;
      var kept := GalleryWithout(g, imageId);
      if |kept| > 0 then
        Some(current.value.(gallery := Some(kept)))
      else
        None
  }

  /** The gallery entries whose id is not `imageId`, in order. */
  function GalleryWithout(g: seq<GalleryImage>, imageId: string): (r: seq<GalleryImage>)
    ensures forall i :: 0 <= i < |g| && g[i].id != imageId ==> multiset(r)[g[i]] == multiset(g)[g[i]]
  {
    var keep := (img: GalleryImage) => img.id != imageId;
    FilterKeepsCounts(g, keep);
    Filter(g, keep)
  }

  /** `addProgressImage`: append to `progress`, creating the document or the list when absent. */
  function AddProgressImage(current: Option<ProjectImages>, progressImage: ProgressImage): (r: ProjectImages)
    ensures var base := current.GetOr(NoImages);
      && Appended(base.progress, r.progress, progressImage)
      && r.gallery == base.gallery && r.beforeAfter == base.beforeAfter && r.plans == base.plans
  {
    var images := current.GetOr(ProjectImages(None, None, Some([]), None));
    images.(progress := Some(ListOf(images.progress) + [progressImage]))
  }

  /**
   * Adding an image with a fresh id and then removing that id restores the document,
   * except that a document whose gallery was empty or absent becomes `null`.
   */
  lemma {:induction false} AddThenRemoveImage(current: Option<ProjectImages>, image: GalleryImage)
    requires forall i :: 0 <= i < |ListOf(current.GetOr(NoImages).gallery)| ==>
               ListOf(current.GetOr(NoImages).gallery)[i].id != image.id
    ensures RemoveImageFromGallery(Some(AddImageToGallery(current, image)), image.id)
         == if ListOf(current.GetOr(NoImages).gallery) == [] then None else current
  {
    var g := ListOf(current.GetOr(NoImages).gallery);
    var added := AddImageToGallery(current, image);
    assert added.gallery == Some(g + [image]);
    FreshImageRemoved(g, image);
    if g == [] {
      assert RemoveImageFromGallery(Some(added), image.id) == None;
    } else {
      assert current.Some? && current.value.gallery == Some(g);
      assert added == current.value.(gallery := Some(g + [image]));
    }
  }

  /** Removing an image that was just appended, under an id nobody else has, gives back the list before. */
  lemma FreshImageRemoved(g: seq<GalleryImage>, image: GalleryImage)
    requires forall i :: 0 <= i < |g| ==> g[i].id != image.id
    ensures GalleryWithout(g + [image], image.id) == g
  {
    var keep := (img: GalleryImage) => img.id != image.id;
    FilterAppend(g, [image], keep);
    FilterSingleton(image, keep);
  }

  // ----- documents -----

  /** `addDocument`: append `document` to the list of `category`, creating the document or the list when absent. */
  function AddDocument(current: Option<ProjectDocuments>, category: DocumentCategory, document: Document): (r: ProjectDocuments)
    ensures Appended(DocumentsIn(current.GetOr(NoDocuments), category), DocumentsIn(r, category), document)
    ensures forall c :: c != category ==> DocumentsIn(r, c) == DocumentsIn(current.GetOr(NoDocuments), c)
  {
    var documents := current.GetOr(NoDocuments);
    WithDocuments(documents, category, Some(ListOf(DocumentsIn(documents, category)) + [document]))
  }

  /**
   * `removeDocument`: drop every document of `category` whose id is `documentId`. Unlike the
   * gallery, an emptied list stays an empty list and the document is never turned into `null`.
   */
  function RemoveDocument(current: Option<ProjectDocuments>, category: DocumentCategory, documentId: string): (r: Option<ProjectDocuments>)
    ensures r.None? <==> current.None?
    ensures current.Some? && DocumentsIn(current.value, category).None? ==> r == current
    ensures current.Some? && DocumentsIn(current.value, category).Some? ==>
      var before := DocumentsIn(current.value, category).value;
      var after := DocumentsIn(r.value, category);
      && after.Some?
      && (forall i :: 0 <= i < |after.value| ==> after.value[i].id != documentId)
      && (forall i :: 0 <= i < |before| && before[i].id != documentId ==> before[i] in after.value)
      && (forall i :: 0 <= i < |before| && before[i].id != documentId ==>
            multiset(after.value)[before[i]] == multiset(before)[before[i]])
      && SubsequenceOf(after.value, before)
      && (forall c :: c != category ==> DocumentsIn(r.value, c) == DocumentsIn(current.value, c))
  {
    if current.None? || DocumentsIn(current.value, category).None? then current
    else
      var kept := DocumentsWithout(DocumentsIn(current.value, category).value, documentId);
      Some(WithDocuments(current.value, category, Some(kept)))
  }

  /** The documents whose id is not `documentId`, in order. */
  function DocumentsWithout(ds: seq<Document>, documentId: string): (r: seq<Document>)
    ensures forall i :: 0 <= i < |ds| && ds[i].id != documentId ==> multiset(r)[ds[i]] == multiset(ds)[ds[i]]
  {
    var keep := (doc: Document) => doc.id != documentId;
    FilterKeepsCounts(ds, keep);
    Filter(ds, keep)
  }

  // ----- notes -----

  /** `addInternalNote`: append to `internal`, creating the document or the list when absent. */
  function AddInternalNote(current: Option<ProjectNotes>, note: InternalNote): (r: ProjectNotes)
    ensures var base := current.GetOr(NoNotes);
      && Appended(base.internal, r.internal, note)
      && r.communication == base.communication && r.milestones == base.milestones && r.issues == base.issues
  {
    var notes := current.GetOr(ProjectNotes(Some([]), None, None, None));
    notes.(internal := Some(ListOf(notes.internal) + [note]))
  }

  /** `addCommunicationLog`: append to `communication`, creating the document or the list when absent. */
  function AddCommunicationLog(current: Option<ProjectNotes>, communication: Communication): (r: ProjectNotes)
    ensures var base := current.GetOr(NoNotes);
      && Appended(base.communication, r.communication, communication)
      && r.internal == base.internal && r.milestones == base.milestones && r.issues == base.issues
  {
    var notes := current.GetOr(ProjectNotes(None, Some([]), None, None));
    notes.(communication := Some(ListOf(notes.communication) + [communication]))
  }

  /** `addMilestone`: append to `milestones`, creating the document or the list when absent. */
  function AddMilestone(current: Option<ProjectNotes>, milestone: Milestone): (r: ProjectNotes)
    ensures var base := current.GetOr(NoNotes);
      && Appended(base.milestones, r.milestones, milestone)
      && r.internal == base.internal && r.communication == base.communication && r.issues == base.issues
  {
    var notes := current.GetOr(ProjectNotes(None, None, Some([]), None));
    notes.(milestones := Some(ListOf(notes.milestones) + [milestone]))
  }

  /** `addIssue`: append to `issues`, creating the document or the list when absent. */
  function AddIssue(current: Option<ProjectNotes>, issue: Issue): (r: ProjectNotes)
    ensures var base := current.GetOr(NoNotes);
      && Appended(base.issues, r.issues, issue)
      && r.internal == base.internal && r.communication == base.communication && r.milestones == base.milestones
  {
    var notes := current.GetOr(ProjectNotes(None, None, None, Some([])));
    notes.(issues := Some(ListOf(notes.issues) + [issue]))
  }

  /** `actualDate && { actualDate }` spreads something only for a non-empty string. */
  predicate IsGiven(actualDate: Option<Timestamp>) {
    actualDate.Some? && actualDate.value != ""
  }

  /**
   * The `map` of `updateMilestoneStatus`: every milestone with id `milestoneId` gets `status`
   * (and `actualDate` when one is given); every other milestone is passed through.
   */
  function SetMilestoneStatus(ms: seq<Milestone>, milestoneId: string, status: MilestoneStatus, actualDate: Option<Timestamp>): (r: seq<Milestone>)
    ensures |r| == |ms|
    ensures forall i :: 0 <= i < |ms| && ms[i].id != milestoneId ==> r[i] == ms[i]
    ensures forall i :: 0 <= i < |ms| && ms[i].id == milestoneId ==> r[i] == Stamped(ms[i], status, actualDate)
  {
    if ms == [] then []
    else
      var head := if ms[0].id == milestoneId then Stamped(ms[0], status, actualDate) else ms[0];
      [head] + SetMilestoneStatus(ms[1..], milestoneId, status, actualDate)
  }

  /** One matched milestone: the new `status`, and the new `actualDate` when one is given; nothing else changes. */
  function Stamped(m: Milestone, status: MilestoneStatus, actualDate: Option<Timestamp>): (r: Milestone)
    ensures r.status == status
    ensures r.actualDate == (if IsGiven(actualDate) then actualDate else m.actualDate)
    ensures r.(status := m.status, actualDate := m.actualDate) == m
  {
    m.(status := status, actualDate := if IsGiven(actualDate) then actualDate else m.actualDate)
  }

  /**
   * `updateMilestoneStatus`. The result is `null` exactly when the notes are, which is the only
   * result the route reports as "not found"; without a milestone list the notes come back as they were.
   */
  function UpdateMilestoneStatus(current: Option<ProjectNotes>, milestoneId: string, status: MilestoneStatus, actualDate: Option<Timestamp>): (r: Option<ProjectNotes>)
    ensures r.None? <==> current.None?
    ensures current.Some? && current.value.milestones.None? ==> r == current
    ensures current.Some? && current.value.milestones.Some? ==>
      var ms := current.value.milestones.value;
      && r.value.milestones.Some?
      && |r.value.milestones.value| == |ms|
      && (forall i :: 0 <= i < |ms| ==> r.value.milestones.value[i].id == ms[i].id)
      && (forall i :: 0 <= i < |ms| && ms[i].id == milestoneId ==> r.value.milestones.value[i].status == status)
      && (forall i :: 0 <= i < |ms| && ms[i].id != milestoneId ==> r.value.milestones.value[i] == ms[i])
      && r.value.milestones == Some(SetMilestoneStatus(ms, milestoneId, status, actualDate))
      && r.value.internal == current.value.internal
      && r.value.communication == current.value.communication
      && r.value.issues == current.value.issues
  {
    if current.None? || current.value.milestones.None? then current
    else Some(current.value.(milestones := Some(SetMilestoneStatus(current.value.milestones.value, milestoneId, status, actualDate))))
  }

  /** An unknown milestone id leaves existing notes equal to what they were, and not `null`: the route answers 200, not 404. */
  lemma UnknownMilestoneIsNoOp(current: Option<ProjectNotes>, milestoneId: string, status: MilestoneStatus, actualDate: Option<Timestamp>)
    requires current.Some?
    requires forall i :: 0 <= i < |ListOf(current.value.milestones)| ==> ListOf(current.value.milestones)[i].id != milestoneId
    ensures UpdateMilestoneStatus(current, milestoneId, status, actualDate) == current
  {
    if current.value.milestones.Some? {
      var ms := current.value.milestones.value;
      var r := SetMilestoneStatus(ms, milestoneId, status, actualDate);
      assert ListOf(current.value.milestones) == ms;
      assert r == ms;
    }
  }

  /**
   * The `map` of `resolveIssue`: every issue with id `issueId`, whatever its status, becomes
   * resolved at `now` by `resolvedBy` with `resolution`; every other issue is passed through.
   */
  function ResolveMatching(issues: seq<Issue>, issueId: string, resolution: string, resolvedBy: UserId, now: Timestamp): (r: seq<Issue>)
    ensures |r| == |issues|
    ensures forall i :: 0 <= i < |issues| && issues[i].id != issueId ==> r[i] == issues[i]
    ensures forall i :: 0 <= i < |issues| && issues[i].id == issueId ==>
      && r[i].status == Resolved
      && r[i].resolvedAt == Some(now) && r[i].resolvedBy == Some(resolvedBy) && r[i].resolution == Some(resolution)
      && r[i].(status := issues[i].status, resolvedAt := issues[i].resolvedAt,
               resolvedBy := issues[i].resolvedBy, resolution := issues[i].resolution) == issues[i]
  {
    if issues == [] then []
    else
      var issue := issues[0];
      var head := if issue.id == issueId then
                    issue.(status := Resolved, resolvedAt := Some(now), resolvedBy := Some(resolvedBy), resolution := Some(resolution))
                  else issue;
      [head] + ResolveMatching(issues[1..], issueId, resolution, resolvedBy, now)
  }

  /**
   * `resolveIssue`, with the clock reading `now` passed in. Like `updateMilestoneStatus`, it
   * returns `null` only for `null` notes and passes notes without an issue list through.
   */
  function ResolveIssue(current: Option<ProjectNotes>, issueId: string, resolution: string, resolvedBy: UserId, now: Timestamp): (r: Option<ProjectNotes>)
    ensures r.None? <==> current.None?
    ensures current.Some? && current.value.issues.None? ==> r == current
    ensures current.Some? && current.value.issues.Some? ==>
      var before := current.value.issues.value;
      && r.value.issues.Some?
      && |r.value.issues.value| == |before|
      && (forall i :: 0 <= i < |before| ==> r.value.issues.value[i].id == before[i].id)
      && (forall i :: 0 <= i < |before| && before[i].id == issueId ==>
            r.value.issues.value[i].status == Resolved && r.value.issues.value[i].resolvedAt == Some(now))
      && (forall i :: 0 <= i < |before| && before[i].id != issueId ==> r.value.issues.value[i] == before[i])
      && r.value.issues == Some(ResolveMatching(before, issueId, resolution, resolvedBy, now))
      && r.value.internal == current.value.internal
      && r.value.communication == current.value.communication
      && r.value.milestones == current.value.milestones
  {
    if current.None? || current.value.issues.None? then current
    else Some(current.value.(issues := Some(ResolveMatching(current.value.issues.value, issueId, resolution, resolvedBy, now))))
  }
}
