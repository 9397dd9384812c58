/**
 * The cookie consent dialog: its `preferences` state, the toggles that edit it and the three
 * buttons that hand a preferences value to `onAccept` (which passes it on to
 * `GtmManager.UpdateConsent`). Every value handed over is recorded in `accepted`.
 */
module ConsentModal {
  import opened Gtm

  datatype PreferenceKey = Analytics | Marketing | Functional | Necessary

  /** `preferences[key]`. */
  function Get(p: ConsentPreferences, key: PreferenceKey): bool {
    match key
    case Analytics => p.analytics
    case Marketing => p.marketing
    case Functional => p.functional
    case Necessary => p.necessary
  }

  /** `handlePreferenceChange` on a preferences value: `necessary` cannot be changed, any other key is set. */
  function ChangePreference(p: ConsentPreferences, key: PreferenceKey, value: bool): (r: ConsentPreferences)
    ensures key == Necessary ==> r == p
    ensures key != Necessary ==> Get(r, key) == value
    ensures forall other :: other != key ==> Get(r, other) == Get(p, other)
  {
    match key
    case Analytics => p.(analytics := value)
    case Marketing => p.(marketing := value)
    case Functional => p.(functional := value)
    case Necessary => p
  }

  /** Changing a toggle twice keeps only the second value. */
  lemma ChangePreferenceOverwrites(p: ConsentPreferences, key: PreferenceKey, v1: bool, v2: bool)
    ensures ChangePreference(ChangePreference(p, key, v1), key, v2) == ChangePreference(p, key, v2)
  {
  }

  /** What Accept All sends. */
  const AllAccepted := ConsentPreferences(true, true, true, true)

  /** What Reject All sends: only the necessary cookies. */
  const MinimalConsent := ConsentPreferences(false, false, false, true)

  class ConsentModal {
    var preferences: ConsentPreferences
    /** The values passed to `onAccept`, oldest first. */
    var accepted: seq<ConsentPreferences>

    /** `necessary` is on in the state and in everything ever handed to `onAccept`. */
    predicate Valid()
      reads this
    {
      preferences.necessary && forall i :: 0 <= i < |accepted| ==> accepted[i].necessary
    }

    constructor ()
      ensures Valid()
      ensures preferences == DefaultPreferences && accepted == []
    {
      preferences := DefaultPreferences;
      accepted := [];
    }

    /** A toggle of the dialog. */
    method HandlePreferenceChange(key: PreferenceKey, value: bool)
      requires Valid()
      modifies this
      ensures Valid()
      ensures preferences == ChangePreference(old(preferences), key, value)
      ensures accepted == old(accepted)
    {
      if key == Necessary {
        return;
      }
      preferences := ChangePreference(preferences, key, value);
    }

    /** Accept All: switch everything on and send it. */
    method HandleAcceptAll()
      requires Valid()
      modifies this
      ensures Valid()
      ensures preferences == AllAccepted
      ensures accepted == old(accepted) + [AllAccepted]
    {
      preferences := AllAccepted;
      accepted := accepted + [AllAccepted];
    }

    /** Save Preferences: send the current state as it is. */
    method HandleAcceptSelected()
      requires Valid()
      modifies this
      ensures Valid()
      ensures preferences == old(preferences)
      ensures accepted == old(accepted) + [preferences]
    {
      accepted := accepted + [preferences];
    }

    /** Reject All: switch everything but the necessary cookies off and send that. */
    method HandleRejectAll()
      requires Valid()
      modifies this
      ensures Valid()
      ensures preferences == MinimalConsent
      ensures accepted == old(accepted) + [MinimalConsent]
    {
      preferences := MinimalConsent;
      accepted := accepted + [MinimalConsent];
    }
  }

  /**
   * Whatever the user does in the dialog, what reaches the manager through `onAccept` keeps
   * `necessary` on: a full preferences value replaces the manager's preferences outright.
   */
  method AcceptIntoManager(modal: ConsentModal, manager: GtmManager)
    requires modal.Valid() && manager.Valid()
    modifies modal, manager
    ensures modal.Valid() && manager.Valid()
    ensures manager.consentPreferences == modal.preferences && manager.consentPreferences.necessary
    ensures manager.consentGiven
    ensures modal.accepted == old(modal.accepted) + [modal.preferences]
  {
    modal.HandleAcceptSelected();
    FullUpdateReplaces(manager.consentPreferences, modal.preferences);
    manager.UpdateConsent(Full(modal.preferences));
  }
}
