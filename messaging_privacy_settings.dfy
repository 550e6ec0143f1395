/** The messaging privacy dialog: a local copy of the four settings, edited
    one key at a time and saved through the messaging store. */
module MessagingPrivacySettings {
  import opened Wrappers
  import opened BackendTypes
  import MessagingContext

  /** The dialog's settings before the store has any. */
  const DefaultSettings: PrivacySettings := PrivacySettings("followersOnly", true, true, true)

  /** The four audiences offered, with the labels of their radio buttons. */
  datatype AudienceOption = AudienceOption(value: string, caption: string)

  const AudienceOptions: seq<AudienceOption> := [
    AudienceOption("everyone", "Everyone"),
    AudienceOption("followersOnly", "Followers only"),
    AudienceOption("connectionsOnly", "Connections only"),
    AudienceOption("nobody", "Nobody")
  ]

  const UnknownText: string := "Unknown"

  predicate IsKnownAudience(option: string) {
    exists i :: 0 <= i < |AudienceOptions| && AudienceOptions[i].value == option
  }

  /** `getMessagePrivacyDisplayName(option)`. */
  function AudienceDisplayName(option: string): (name: string)
    ensures name == UnknownText <==> !IsKnownAudience(option)
  {
    assert AudienceOptions[0].value == "everyone";
    assert AudienceOptions[1].value == "followersOnly";
    assert AudienceOptions[2].value == "connectionsOnly";
    assert AudienceOptions[3].value == "nobody";
    match option
    case "everyone" => "Everyone"
    case "followersOnly" => "Followers only"
    case "connectionsOnly" => "Connections only"
    case "nobody" => "Nobody"
    case _ => UnknownText
  }

  /** The display name of each offered audience is its radio button's label,
      and different audiences read differently. */
  lemma DisplayNamesAreLabels(i: nat, j: nat)
    requires i < |AudienceOptions| && j < |AudienceOptions|
    ensures AudienceDisplayName(AudienceOptions[i].value) == AudienceOptions[i].caption
    ensures i != j ==> AudienceDisplayName(AudienceOptions[i].value) != AudienceDisplayName(AudienceOptions[j].value)
  {
  }

  /** One `handleSettingChange(key, value)` call. */
  datatype SettingChange =
    | AllowMessagesFrom(audience: string)
    | AllowGroupInvites(allowed: bool)
    | ShowOnlineStatus(shown: bool)
    | ShowReadReceipts(shown: bool)

  function ApplyChange(s: PrivacySettings, change: SettingChange): (r: PrivacySettings)
    ensures r.allowMessagesFrom == (if change.AllowMessagesFrom? then change.audience else s.allowMessagesFrom)
    ensures r.allowGroupInvites == (if change.AllowGroupInvites? then change.allowed else s.allowGroupInvites)
    ensures r.showOnlineStatus == (if change.ShowOnlineStatus? then change.shown else s.showOnlineStatus)
    ensures r.showReadReceipts == (if change.ShowReadReceipts? then change.shown else s.showReadReceipts)
  {
    match change
    case AllowMessagesFrom(a) => s.(allowMessagesFrom := a)
    case AllowGroupInvites(b) => s.(allowGroupInvites := b)
    case ShowOnlineStatus(b) => s.(showOnlineStatus := b)
    case ShowReadReceipts(b) => s.(showReadReceipts := b)
  }

  /** Whether two changes set the same key. */
  predicate SameKey(a: SettingChange, b: SettingChange) {
    (a.AllowMessagesFrom? && b.AllowMessagesFrom?) || (a.AllowGroupInvites? && b.AllowGroupInvites?)
    || (a.ShowOnlineStatus? && b.ShowOnlineStatus?) || (a.ShowReadReceipts? && b.ShowReadReceipts?)
  }

  /** Changes to different keys may come in either order; of two changes to
      the same key the later one wins. */
  lemma ChangesCompose(s: PrivacySettings, a: SettingChange, b: SettingChange)
    ensures !SameKey(a, b) ==> ApplyChange(ApplyChange(s, a), b) == ApplyChange(ApplyChange(s, b), a)
    ensures SameKey(a, b) ==> ApplyChange(ApplyChange(s, a), b) == ApplyChange(s, b)
  {
  }

  class PrivacySettingsDialog {
    var settings: PrivacySettings
    var saving: bool
    var isOpen: bool

    constructor ()
      ensures settings == DefaultSettings && !saving && isOpen
    {
      settings := DefaultSettings;
      saving := false;
      isOpen := true;
    }

    /** The effect that copies the store's settings, when it has any. */
    method SyncFromStore(stored: Option<PrivacySettings>)
      modifies this`settings
      ensures settings == if stored.Some? then stored.value else old(settings)
    {
      if stored.Some? {
        var p := stored.value;
        settings := PrivacySettings(p.allowMessagesFrom, p.allowGroupInvites, p.showOnlineStatus, p.showReadReceipts);
      }
    }

    /** `handleSettingChange(key, value)`. */
    method HandleSettingChange(change: SettingChange)
      modifies this`settings
      ensures settings == ApplyChange(old(settings), change)
    {
      settings := ApplyChange(settings, change);
    }

    /** The Save button's `disabled` attribute, given the store's `loading`. */
    predicate SaveDisabled(loading: bool)
      reads this
    {
      saving || loading
    }

    /** `handleSave()`: the store caches exactly the dialog's settings on
        success, and only then is the dialog closed. */
    method HandleSave(store: MessagingContext.MessagingStore, setPrivacySettings: PrivacySettings -> Reply<()>)
      returns (ok: bool)
      modifies this`saving, this`isOpen, store`privacySettings, store`error
      ensures !saving
      ensures isOpen == (old(isOpen) && !ok)
      ensures ok <==> store.messagingActor.Some? && setPrivacySettings(settings).Ok?
      ensures ok ==> store.privacySettings == Some(settings)
      ensures !ok ==> store.privacySettings == old(store.privacySettings)
      ensures store.messagingActor.None? ==> store.error == old(store.error)
      ensures store.messagingActor.Some? ==>
        store.error == MessagingContext.ErrorAfter(setPrivacySettings(settings), MessagingContext.UpdatePrivacyFailedText, old(store.error))
    {
      saving := true;
      ok := store.UpdatePrivacySettings(settings, setPrivacySettings);
      if ok {
        isOpen := false;
      }
      saving := false;
    }
  }
}
