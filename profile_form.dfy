/** The profile editor: three text inputs and an optional picture, a flag
    saying whether they differ from the fetched profile, and the submit
    that sends them. The flag is kept by an effect that re-runs after every
    change, so each state-changing method below ends with that effect and
    leaves the flag in step with the inputs. */
module ProfileForm {
  import opened JsValues
  import opened Types
  import opened AuthStore

  /** The profile as `/profile` returns it; `bio` and `profileImage` can be
      `null` at run time whatever the declared type says. */
  datatype Profile = Profile(
    id: string,
    username: string,
    email: string,
    bio: Option<string>,
    profileImage: Option<string>,
    presenceStatus: string)

  /** The form data of the update request. */
  datatype ProfileUpdate = ProfileUpdate(username: string, email: string, bio: string, profileImage: Option<FileRef>)

  /** The comparison of the change-detection effect. Before the profile is
      fetched, `profile?.username` is `undefined` and every string differs
      from it; a `null` bio differs from every string, "" included. */
  predicate IsChanged(username: string, email: string, bio: string, image: Option<FileRef>, profile: Option<Profile>)
  {
    || profile.None?
    || username != profile.value.username
    || email != profile.value.email
    || Some(bio) != profile.value.bio
    || image.Some?
  }

  /** With a fetched profile, the form counts as changed exactly when a
      field differs from the profile or a picture is picked. */
  lemma IsChangedSpec(username: string, email: string, bio: string, image: Option<FileRef>, p: Profile)
    ensures IsChanged(username, email, bio, image, Some(p)) <==>
              username != p.username || email != p.email || p.bio != Some(bio) || image.Some?
    ensures !IsChanged(username, email, bio, image, Some(p)) ==> p.bio.Some? && bio == p.bio.value
  {
  }

  /** The inputs the profile-load effect fills in (`profile.bio || ""`). */
  function LoadedBio(p: Profile): string
  {
    OrElse(p.bio, "")
  }

  /** Right after a profile loads, the form is unchanged if the profile has
      a bio, but counts as changed when the bio is `null`: the input shows
      "" and "" is not `null`. The update button is then enabled although
      nothing was edited. */
  lemma LoadedFormChangedOnlyForNullBio(p: Profile)
    ensures IsChanged(p.username, p.email, LoadedBio(p), None, Some(p)) <==> p.bio.None?
  {
  }

  class ProfileFormState {
    /** The session store the form reads its first values from and writes
        the updated user to. */
    const store: AuthState
    var username: string
    var email: string
    var bio: string
    var profileImage: Option<FileRef>
    var isFormChanged: bool
    /** The result of the `["profile"]` query, once fetched. */
    var profile: Option<Profile>

    /** The change flag agrees with the inputs. */
    predicate InStep()
      reads this
    {
      isFormChanged == IsChanged(username, email, bio, profileImage, profile)
    }

    /** Mounting: the inputs start from the user in the session store (or
        ""), nothing is picked, and the change-detection effect has run once
        with no profile yet, so the form counts as changed. */
    constructor (store: AuthState, user: Option<AuthUser>)
      ensures this.store == store && profile == None && profileImage == None
      ensures username == (if user.None? then "" else OrElse(Some(user.value.username), ""))
      ensures email == (if user.None? then "" else OrElse(Some(user.value.email), ""))
      ensures bio == (if user.None? then "" else OrElse(user.value.bio, ""))
      ensures InStep() && isFormChanged
    {
      this.store := store;
      username := if user.None? then "" else OrElse(Some(user.value.username), "");
      email := if user.None? then "" else OrElse(Some(user.value.email), "");
      bio := if user.None? then "" else OrElse(user.value.bio, "");
      profileImage := None;
      profile := None;
      isFormChanged := true;
    }

    /** The profile query delivered `p`: the load effect copies it into the
        inputs (a `null` bio as ""), then the change-detection effect runs. */
    method OnProfileLoaded(p: Profile)
      modifies this
      ensures profile == Some(p) && profileImage == old(profileImage)
      ensures username == p.username && email == p.email && bio == LoadedBio(p)
      ensures InStep()
      ensures profileImage.None? ==> (isFormChanged <==> p.bio.None?)
    {
      profile := Some(p);
      username := p.username;
      email := p.email;
      bio := OrElse(p.bio, "");
      isFormChanged := IsChanged(username, email, bio, profileImage, profile);
      LoadedFormChangedOnlyForNullBio(p);
    }

    method SetUsername(text: string)
      modifies this
      ensures username == text && email == old(email) && bio == old(bio)
      ensures profileImage == old(profileImage) && profile == old(profile)
      ensures InStep()
    {
      username := text;
      isFormChanged := IsChanged(username, email, bio, profileImage, profile);
    }

    method SetEmail(text: string)
      modifies this
      ensures email == text && username == old(username) && bio == old(bio)
      ensures profileImage == old(profileImage) && profile == old(profile)
      ensures InStep()
    {
      email := text;
      isFormChanged := IsChanged(username, email, bio, profileImage, profile);
    }

    method SetBio(text: string)
      modifies this
      ensures bio == text && username == old(username) && email == old(email)
      ensures profileImage == old(profileImage) && profile == old(profile)
      ensures InStep()
    {
      bio := text;
      isFormChanged := IsChanged(username, email, bio, profileImage, profile);
    }

    /** The file input: `files?.[0] || null`. Picking a file always makes
        the form count as changed. */
    method SetProfileImage(picked: Option<FileRef>)
      modifies this
      ensures profileImage == picked && username == old(username) && email == old(email) && bio == old(bio)
      ensures profile == old(profile)
      ensures InStep()
      ensures picked.Some? ==> isFormChanged
    {
      profileImage := picked;
      isFormChanged := IsChanged(username, email, bio, profileImage, profile);
    }

    /** `handleSubmit`: nothing when the form is unchanged; otherwise the
        three text fields, and the picture only when one is picked. */
    method HandleSubmit() returns (update: Option<ProfileUpdate>)
      ensures update.None? <==> !isFormChanged
      ensures update.Some? ==> update.value == ProfileUpdate(username, email, bio, profileImage)
    {
      if !isFormChanged {
        return None;
      }
      update := Some(ProfileUpdate(username, email, bio, profileImage));
    }

    /** The update button's `disabled`. */
    function UpdateDisabled(pending: bool): (disabled: bool)
      reads this
      ensures !disabled <==> isFormChanged && !pending
    {
      !isFormChanged || pending
    }

    /** The update succeeded with `u`: the session store gets the new user
        (the profile refetch is not modelled). */
    method OnUpdateSuccess(u: AuthUser)
      modifies store
      ensures store.user == Some(u) && store.token == old(store.token)
    {
      store.SetUser(u);
    }

    /** `handleLogout`: the session store is cleared. */
    method HandleLogout()
      modifies store
      ensures store.user == None && store.token == None
    {
      store.Logout();
    }
  }
}
