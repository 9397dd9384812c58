/**
 * `ContactDataManager`: copy-on-write transforms of a contact's `notes` JSON document.
 */
module ContactDataManager {
  import opened Wrappers
  import JsValues

  type Timestamp = string

  /** Lead qualification; every field is optional, so the same record also serves as a partial update. */
  datatype Qualification = Qualification(
    budget: Option<real>,
    timeline: Option<string>,
    decisionMaker: Option<string>,
    competition: Option<seq<string>>,
    painPoints: Option<seq<string>>,
    requirements: Option<seq<string>>)

  const NoQualification := Qualification(None, None, None, None, None, None)

  datatype Channel = Email | Phone | Meeting | SiteVisit

  datatype Direction = Inbound | Outbound

  datatype ContactCommunication = ContactCommunication(id: string, channel: Channel, subject: Option<string>,
                                                       content: string, direction: Direction, createdAt: Timestamp,
                                                       createdBy: int, attachments: Option<seq<string>>)

  datatype FollowUpStatus = Pending | Completed | Overdue

  datatype FollowUp = FollowUp(id: string, task: string, dueDate: Timestamp, status: FollowUpStatus, assignedTo: int,
                               createdAt: Timestamp, completedAt: Option<Timestamp>, notes: Option<string>)

  datatype ContactNotes = ContactNotes(
    qualification: Option<Qualification>,
    communication: Option<seq<ContactCommunication>>,
    followUps: Option<seq<FollowUp>>,
    customFields: Option<map<string, JsValues.Value>>)

  const NoContactNotes := ContactNotes(None, None, None, None)

  /** `addCommunication`: append to `communication`, creating the document or the list when absent. */
  function AddCommunication(current: Option<ContactNotes>, communication: ContactCommunication): (r: ContactNotes)
    ensures var base := current.GetOr(NoContactNotes);
      && Appended(base.communication, r.communication, communication)
      && r.qualification == base.qualification && r.followUps == base.followUps && r.customFields == base.customFields
  {
    var notes := current.GetOr(ContactNotes(None, Some([]), None, None));
    notes.(communication := Some(ListOf(notes.communication) + [communication]))
  }

  /** `addFollowUp`: append to `followUps`, creating the document or the list when absent. */
  function AddFollowUp(current: Option<ContactNotes>, followUp: FollowUp): (r: ContactNotes)
    ensures var base := current.GetOr(NoContactNotes);
      && Appended(base.followUps, r.followUps, followUp)
      && r.qualification == base.qualification && r.communication == base.communication && r.customFields == base.customFields
  {
    var notes := current.GetOr(ContactNotes(None, None, Some([]), None));
    notes.(followUps := Some(ListOf(notes.followUps) + [followUp]))
  }

  /** `{ ...earlier, ...later }` on qualification records: each field present in `later` wins. */
  function MergeQualification(earlier: Qualification, later: Qualification): Qualification {
    Qualification(
      if later.budget.Some? then later.budget else earlier.budget,
      if later.timeline.Some? then later.timeline else earlier.timeline,
      if later.decisionMaker.Some? then later.decisionMaker else earlier.decisionMaker,
      if later.competition.Some? then later.competition else earlier.competition,
      if later.painPoints.Some? then later.painPoints else earlier.painPoints,
      if later.requirements.Some? then later.requirements else earlier.requirements)
  }

  /**
   * `updateQualification`: merge `qualification` over the stored one (absent counting as
   * empty); the result always has a qualification and every other key is kept.
   */
  function UpdateQualification(current: Option<ContactNotes>, qualification: Qualification): (r: ContactNotes)
    ensures var base := current.GetOr(NoContactNotes);
      var before := base.qualification.GetOr(NoQualification);
      && r.qualification.Some?
      && (qualification.budget.Some? ==> r.qualification.value.budget == qualification.budget)
      && (qualification.budget.None? ==> r.qualification.value.budget == before.budget)
      && (qualification.timeline.Some? ==> r.qualification.value.timeline == qualification.timeline)
      && (qualification.timeline.None? ==> r.qualification.value.timeline == before.timeline)
      && (qualification.decisionMaker.Some? ==> r.qualification.value.decisionMaker == qualification.decisionMaker)
      && (qualification.decisionMaker.None? ==> r.qualification.value.decisionMaker == before.decisionMaker)
      && (qualification.competition.Some? ==> r.qualification.value.competition == qualification.competition)
      && (qualification.competition.None? ==> r.qualification.value.competition == before.competition)
      && (qualification.painPoints.Some? ==> r.qualification.value.painPoints == qualification.painPoints)
      && (qualification.painPoints.None? ==> r.qualification.value.painPoints == before.painPoints)
      && (qualification.requirements.Some? ==> r.qualification.value.requirements == qualification.requirements)
      && (qualification.requirements.None? ==> r.qualification.value.requirements == before.requirements)
      && r.communication == base.communication && r.followUps == base.followUps && r.customFields == base.customFields
  {
    var notes := current.GetOr(NoContactNotes);
    notes.(qualification := Some(MergeQualification(notes.qualification.GetOr(NoQualification), qualification)))
  }

  /**
   * Updating twice with the same fields is updating once, an empty update only makes sure a
   * qualification exists, and two updates in a row are one update with the merged fields.
   */
  lemma UpdateQualificationComposes(current: Option<ContactNotes>, q1: Qualification, q2: Qualification)
    ensures UpdateQualification(Some(UpdateQualification(current, q1)), q1) == UpdateQualification(current, q1)
    ensures UpdateQualification(Some(UpdateQualification(current, q1)), q2) == UpdateQualification(current, MergeQualification(q1, q2))
    ensures UpdateQualification(current, NoQualification).qualification
         == Some(current.GetOr(NoContactNotes).qualification.GetOr(NoQualification))
  {
  }
}
