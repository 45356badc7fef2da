/**
 * The profile forms of the settings page and of onboarding: which avatar is
 * stored, when the save button is enabled, the profile that is written, and
 * onboarding's two-step flow.
 */
module ProfileForms {
  import opened Wrappers
  import opened Types
  import opened Text
  import opened LocalStore

  /**
   * The avatar part of the form: the chosen tab and the three sources it can
   * take the avatar from (the picked emoji, the uploaded image as a data URL,
   * the typed URL; "" when nothing was given).
   */
  datatype AvatarForm = AvatarForm(choice: AvatarType, emoji: string, image: string, url: string)

  /** The form's source for an avatar type. */
  function SourceOf(form: AvatarForm, kind: AvatarType): string {
    match kind
    case Emoji => form.emoji
    case Upload => form.image
    case Url => form.url
  }

  /**
   * The avatar `handleSave` and `handleComplete` store: the chosen upload or
   * URL when its source is non-empty, the picked emoji otherwise.
   */
  method ResolveAvatar(form: AvatarForm) returns (avatar: string, kind: AvatarType)
    ensures kind == Upload <==> form.choice == Upload && form.image != ""
    ensures kind == Url <==> form.choice == Url && form.url != ""
    ensures avatar == SourceOf(form, kind)
    ensures kind != Emoji ==> avatar != ""
    ensures kind == ResolvedKind(form)
  {
    avatar := form.emoji;
    kind := Emoji;
    if form.choice == Upload && form.image != "" {
      avatar := form.image;
      kind := Upload;
    } else if form.choice == Url && form.url != "" {
      avatar := form.url;
      kind := Url;
    }
  }

  /** `canSave` / `canProceed`: a non-blank name, and the chosen tab has a source (an emoji always has one). */
  predicate CanSubmit(name: string, form: AvatarForm) {
    |Trim(name)| > 0 &&
    (form.choice == Emoji || (form.choice == Upload && form.image != "") || (form.choice == Url && form.url != ""))
  }

  /** The type of avatar that is stored, as `ResolveAvatar` picks it. */
  function ResolvedKind(form: AvatarForm): (r: AvatarType)
    ensures r == Upload <==> form.choice == Upload && form.image != ""
    ensures r == Url <==> form.choice == Url && form.url != ""
  {
    if form.choice == Upload && form.image != "" then Upload
    else if form.choice == Url && form.url != "" then Url
    else Emoji
  }

  /**
   * With the button enabled the stored avatar is exactly the chosen one; the
   * fallback to the emoji only happens for a form whose button is disabled.
   */
  lemma EnabledKeepsChoice(name: string, form: AvatarForm)
    ensures CanSubmit(name, form) ==> ResolvedKind(form) == form.choice
    ensures |Trim(name)| > 0 && ResolvedKind(form) != form.choice ==> !CanSubmit(name, form)
    ensures CanSubmit(name, form) <==> |Trim(name)| > 0 && ResolvedKind(form) == form.choice
  {
  }

  /**
   * The profile `handleSave` / `handleComplete` writes: none for a blank name;
   * otherwise the trimmed name with the resolved avatar.
   */
  function ProfileToSave(name: string, form: AvatarForm): (r: Option<Profile>)
    ensures r.None? <==> Trim(name) == ""
    ensures r.Some? ==> r.value.name == Trim(name) && Trimmed(r.value.name)
    ensures r.Some? ==> r.value.avatarType == ResolvedKind(form) && r.value.avatar == SourceOf(form, ResolvedKind(form))
  {
    if Trim(name) == "" then None
    else Some(Profile(Trim(name), SourceOf(form, ResolvedKind(form)), ResolvedKind(form)))
  }

  /**
   * `handleSave` on the settings page and `handleComplete` in onboarding: a
   * blank name returns before anything is written; otherwise the profile is
   * set.
   */
  method SaveProfile(store: Store, name: string, form: AvatarForm)
    modifies store`profileSlot
    ensures ProfileToSave(name, form).None? ==> store.profileSlot == old(store.profileSlot)
    ensures ProfileToSave(name, form).Some? ==> store.profileSlot == Stored(ProfileToSave(name, form).value)
    ensures Trim(name) != "" ==> store.CurrentUser() == ProfileToSave(name, form)
  {
    if Trim(name) == "" {
      return;
    }
    var avatar, kind := ResolveAvatar(form);
    store.SetCurrentUser(Profile(Trim(name), avatar, kind));
  }

  /** Saving twice with the same form stores the same profile as saving once. */
  lemma SavedProfileIsStable(name: string, form: AvatarForm)
    requires ProfileToSave(name, form).Some?
    ensures var p := ProfileToSave(name, form).value;
      ProfileToSave(p.name, form) == Some(p)
  {
    var p := ProfileToSave(name, form).value;
    TrimTrimmed(p.name);
  }

  /**
   * Onboarding: step 1 asks for the name, step 2 for the avatar; the name box
   * is only shown on step 1 and the avatar tabs only on step 2.
   */
  class Onboarding {
    var step: int
    var name: string
    var form: AvatarForm

    /** The steps are 1 and 2, and step 2 is only reached with a non-blank name. */
    predicate Valid()
      reads this
    {
      (step == 1 || step == 2) && (step == 2 ==> Trim(name) != "")
    }

    /** The page starts on step 1 with an empty name and the default emoji. */
    constructor (defaultEmoji: string)
      ensures Valid() && step == 1 && name == ""
      ensures form == AvatarForm(Emoji, defaultEmoji, "", "")
    {
      step := 1;
      name := "";
      form := AvatarForm(Emoji, defaultEmoji, "", "");
    }

    /** Typing in the name box, which only step 1 shows. */
    method SetName(typed: string)
      requires Valid()
      modifies this`name
      ensures Valid()
      ensures name == if old(step) == 1 then typed else old(name)
    {
      if step == 1 {
        name := typed;
      }
    }

    /** Choosing a tab or a source on step 2. */
    method SetAvatar(chosen: AvatarForm)
      requires Valid()
      modifies this`form
      ensures Valid()
      ensures form == if step == 2 then chosen else old(form)
    {
      if step == 2 {
        form := chosen;
      }
    }

    /** Continue: disabled for a blank name, otherwise step 1 goes to step 2. */
    method Continue()
      requires Valid()
      modifies this`step
      ensures Valid()
      ensures step == if old(step) == 1 && Trim(name) != "" then 2 else old(step)
    {
      if step == 1 && Trim(name) != "" {
        step := 2;
      }
    }

    /** Back: step 2 returns to step 1, keeping the name. */
    method Back()
      requires Valid()
      modifies this`step
      ensures Valid() && step == 1
    {
      step := 1;
    }

    /**
     * Complete Setup: only on step 2 and only while `canProceed` holds; it
     * stores the profile built from the name and the resolved avatar.
     */
    method Complete(store: Store) returns (done: bool)
      requires Valid()
      modifies store`profileSlot
      ensures done <==> step == 2 && CanSubmit(name, form)
      ensures done ==> store.CurrentUser() == Some(Profile(Trim(name), SourceOf(form, form.choice), form.choice))
      ensures !done ==> store.profileSlot == old(store.profileSlot)
    {
      done := step == 2 && CanSubmit(name, form);
      if done {
        EnabledKeepsChoice(name, form);
        SaveProfile(store, name, form);
      }
    }
  }
}
