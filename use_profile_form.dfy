/**
 * `useProfileForm`: the editable name, initialised from the signed-in user,
 * and `handleSave`, which stores the trimmed name or refuses an empty one.
 * Toasts are recorded, not shown.
 */
module UseProfileForm {
  import opened Wrappers
  import opened JsString
  import opened AuthContext

  datatype Toast = SuccessToast(message: string) | ErrorToast(message: string)

  /** `user?.name ?? ""`. */
  function NameOf(user: Option<User>): (name: string)
    ensures user.Some? && user.value.name.Some? ==> name == user.value.name.value
    ensures user.None? || user.value.name.None? ==> name == ""
  {
    if user.Some? then user.value.name.GetOr("") else ""
  }

  /** `user?.email ?? ""`. */
  function EmailOf(user: Option<User>): (email: string)
    ensures user.Some? && user.value.email.Some? ==> email == user.value.email.value
    ensures user.None? || user.value.email.None? ==> email == ""
  {
    if user.Some? then user.value.email.GetOr("") else ""
  }

  /** The update `handleSave` passes to `updateUser`: the name only. */
  function NamePatch(name: string): User {
    User(Some(name), None, None)
  }

  class ProfileForm {
    const auth: AuthProvider
    var name: string
    var toasts: seq<Toast>

    /** `useState(user?.name ?? "")`: read once, when the form mounts. */
    constructor (auth: AuthProvider)
      ensures this.auth == auth && name == NameOf(auth.user) && toasts == []
    {
      this.auth := auth;
      name := NameOf(auth.user);
      toasts := [];
    }

    /** The `email` the hook returns, derived from the current user on every render. */
    function Email(): string
      reads this, auth
    {
      EmailOf(auth.user)
    }

    method SetName(value: string)
      modifies this
      ensures name == value && toasts == old(toasts)
    {
      name := value;
    }

    /** `handleSave`. */
    method HandleSave()
      modifies this, auth
      ensures name == old(name)
      ensures Trim(name) != "" ==>
                auth.user == Some(Merge(old(auth.user), NamePatch(Trim(name))))
                && auth.storage == old(auth.storage)[UserKey := Serialized(Merge(old(auth.user), NamePatch(Trim(name))))]
                && toasts == old(toasts) + [SuccessToast("Profile saved successfully!")]
      ensures Trim(name) == "" ==>
                auth.user == old(auth.user) && auth.storage == old(auth.storage)
                && toasts == old(toasts) + [ErrorToast("Name cannot be empty")]
      ensures auth.isInitialized == old(auth.isInitialized)
    {
      if Trim(name) != "" {
        auth.UpdateUser(NamePatch(Trim(name)));
        toasts := toasts + [SuccessToast("Profile saved successfully!")];
      } else {
        toasts := toasts + [ErrorToast("Name cannot be empty")];
      }
    }
  }

  /** A saved name has no whitespace at either end and is what was typed, less that whitespace. */
  lemma SavedNameIsTrimmed(prev: Option<User>, typed: string)
    requires Trim(typed) != ""
    ensures var saved := Merge(prev, NamePatch(Trim(typed))).name;
      saved.Some? && saved.value != ""
      && !IsWhitespace(saved.value[0]) && !IsWhitespace(saved.value[|saved.value| - 1])
      && Trim(saved.value) == saved.value
  {
    TrimSpec(typed);
    TrimIdempotent(typed);
  }

  /** Saving the same name twice leaves the same user as saving it once. */
  method SaveTwice(form: ProfileForm)
    modifies form, form.auth
    ensures Trim(form.name) != "" ==> form.auth.user == Some(Merge(old(form.auth.user), NamePatch(Trim(form.name))))
    ensures Trim(form.name) == "" ==> form.auth.user == old(form.auth.user)
  {
    form.HandleSave();
    form.HandleSave();
    MergeIdempotent(old(form.auth.user), NamePatch(Trim(form.name)));
  }
}
