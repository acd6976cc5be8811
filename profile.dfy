/** The state handlers of the profile page (src/app/profile/page.tsx). The
    component's state is a class; each handler that calls a state setter is a
    method. A toast is represented by the message it would show. */
module Profile {
  import opened Wrappers
  import ProtectedRoute

  /** An uploaded file, by name and size in bytes. */
  datatype File = File(name: string, size: nat)

  datatype ProfileData = ProfileData(
    username: string, email: string, bio: string, location: string, website: string,
    favoriteGenres: seq<string>, readingGoal: int, profileImage: Option<File>)

  datatype PasswordData = PasswordData(currentPassword: string, newPassword: string, confirmPassword: string)

  const ClearedPasswords := PasswordData("", "", "")

  const MaxImageBytes: nat := 5 * 1024 * 1024

  const MinPasswordLength: nat := 6

  const DefaultBio := "A passionate reader exploring the infinite worlds within books. Currently diving into fantasy epics and classic literature."

  const DefaultFavorites := ["Fantasy", "Science Fiction", "Mystery", "Classic Literature"]

  /** The profile form for the auth hook's `user` at the time it is built;
      `user?.username || ""` is the user's name or the empty string. */
  function ProfileFor(user: Option<ProtectedRoute.ClientUser>): ProfileData {
    ProfileData(
      if user.Some? then user.value.username else "",
      if user.Some? then user.value.email else "",
      DefaultBio, "Lagos, Nigeria", "", DefaultFavorites, 50, None)
  }

  /** `list.filter((g) => g !== genre)`. */
  function Without(list: seq<string>, genre: string): (r: seq<string>)
    ensures forall g :: g in r <==> g in list && g != genre
    ensures |r| <= |list|
  {
    if list == [] then []
    else (if list[0] == genre then [] else [list[0]]) + Without(list[1..], genre)
  }

  /** Filtering keeps the order: it works piecewise on a concatenation. */
  lemma {:induction false} WithoutAppend(a: seq<string>, b: seq<string>, genre: string)
    ensures Without(a + b, genre) == Without(a, genre) + Without(b, genre)
  {
    if a == [] {
      assert a + b == b;
    } else {
      assert (a + b)[0] == a[0];
      assert (a + b)[1..] == a[1..] + b;
      WithoutAppend(a[1..], b, genre);
      var head := if a[0] == genre then [] else [a[0]];
      assert Without(a + b, genre) == head + (Without(a[1..], genre) + Without(b, genre));
      assert Without(a, genre) == head + Without(a[1..], genre);
    }
  }

  /** Filtering out a genre that is not there leaves the list as it was. */
  lemma {:induction false} WithoutAbsent(list: seq<string>, genre: string)
    requires genre !in list
    ensures Without(list, genre) == list
  {
    if list != [] {
      WithoutAbsent(list[1..], genre);
    }
  }

  predicate NoDuplicates(list: seq<string>) {
    forall i, j :: 0 <= i < j < |list| ==> list[i] != list[j]
  }

  lemma {:induction false} WithoutKeepsNoDuplicates(list: seq<string>, genre: string)
    requires NoDuplicates(list)
    ensures NoDuplicates(Without(list, genre))
  {
    if list != [] {
      WithoutKeepsNoDuplicates(list[1..], genre);
      assert list[0] !in list[1..];
    }
  }

  /** The favourite-genre change of `handleGenreToggle`: a present genre is
      removed (every occurrence), an absent one appended. */
  function Toggle(list: seq<string>, genre: string): (r: seq<string>)
    ensures genre in r <==> genre !in list
    ensures forall g :: g != genre ==> (g in r <==> g in list)
    ensures genre !in list ==> r == list + [genre]
    ensures genre in list ==> r == Without(list, genre)
  {
    if genre in list then Without(list, genre) else list + [genre]
  }

  /** Toggling a present genre keeps the other genres in their order. */
  lemma RemovalKeepsOrder(prefix: seq<string>, genre: string, suffix: seq<string>)
    requires genre !in prefix && genre !in suffix
    ensures Toggle(prefix + [genre] + suffix, genre) == prefix + suffix
  {
    var left := prefix + [genre];
    var list := left + suffix;
    assert genre in list by { assert list[|prefix|] == genre; }
    WithoutAppend(left, suffix, genre);
    WithoutAppend(prefix, [genre], genre);
    WithoutAbsent(prefix, genre);
    WithoutAbsent(suffix, genre);
    assert Without([genre], genre) == [] by {
      assert [genre][1..] == [];
    }
    assert Without(left, genre) == prefix;
  }

  /** Toggling an absent genre twice gives back the list. */
  lemma ToggleTwiceRestores(list: seq<string>, genre: string)
    requires genre !in list
    ensures Toggle(Toggle(list, genre), genre) == list
  {
    WithoutAppend(list, [genre], genre);
    WithoutAbsent(list, genre);
  }

  lemma ToggleKeepsNoDuplicates(list: seq<string>, genre: string)
    requires NoDuplicates(list)
    ensures NoDuplicates(Toggle(list, genre))
  {
    if genre in list {
      WithoutKeepsNoDuplicates(list, genre);
    }
  }

  /** The checks of `handleChangePassword`, in their order: the two new
      entries must agree, then be long enough. The current password is not
      checked. */
  function PasswordChangeError(p: PasswordData): (r: Option<string>)
    ensures r.None? <==> p.newPassword == p.confirmPassword && |p.newPassword| >= MinPasswordLength
    ensures p.newPassword != p.confirmPassword ==> r == Some("New passwords don't match")
    ensures p.newPassword == p.confirmPassword && |p.newPassword| < MinPasswordLength
            ==> r == Some("Password must be at least 6 characters")
  {
    if p.newPassword != p.confirmPassword then Some("New passwords don't match")
    else if |p.newPassword| < MinPasswordLength then Some("Password must be at least 6 characters")
    else None
  }

  /** The size check of `handleImageUpload`. */
  function ImageError(file: File): (r: Option<string>)
    ensures r.None? <==> file.size <= 5242880
    ensures r.Some? ==> r == Some("Image must be less than 5MB")
  {
    if file.size > MaxImageBytes then Some("Image must be less than 5MB") else None
  }

  /** The component state of `ProfilePage`. The auth hook is a separate
      component state: its user is a parameter of the handlers that read it. */
  class ProfilePage {
    var isEditing: bool
    var isChangingPassword: bool
    var profile: ProfileData
    var passwords: PasswordData

    /** The first render: the auth hook has not loaded its user yet (it starts
        as `null`), so the form starts with an empty username and email, and
        nothing copies the loaded user into it later. */
    constructor ()
      ensures !isEditing && !isChangingPassword
      ensures profile == ProfileFor(None) && passwords == ClearedPasswords
      ensures profile.username == "" && profile.email == ""
    {
      isEditing, isChangingPassword := false, false;
      profile := ProfileFor(None);
      passwords := ClearedPasswords;
    }

    method HandleGenreToggle(genre: string)
      modifies this
      ensures profile == old(profile).(favoriteGenres := Toggle(old(profile.favoriteGenres), genre))
      ensures passwords == old(passwords) && isEditing == old(isEditing)
      ensures isChangingPassword == old(isChangingPassword)
    {
      profile := profile.(favoriteGenres := Toggle(profile.favoriteGenres, genre));
    }

    /** `file` is the first selected file, if any; `toast` is the error shown. */
    method HandleImageUpload(file: Option<File>) returns (toast: Option<string>)
      modifies this
      ensures file.None? ==> toast.None? && profile == old(profile)
      ensures file.Some? ==> toast == ImageError(file.value)
      ensures profile == if file.Some? && toast.None? then old(profile).(profileImage := file) else old(profile)
      ensures passwords == old(passwords) && isEditing == old(isEditing)
      ensures isChangingPassword == old(isChangingPassword)
    {
      toast := None;
      if file.Some? {
        if file.value.size > MaxImageBytes {
          toast := Some("Image must be less than 5MB");
          return;
        }
        profile := profile.(profileImage := file);
      }
    }

    /** `handleChangePassword`: on a rejected change nothing moves; on an
        accepted one the form closes and its fields are cleared. */
    method HandleChangePassword() returns (toast: Option<string>)
      modifies this
      ensures var error := PasswordChangeError(old(passwords));
              if error.Some? then
                toast == error && passwords == old(passwords) && isChangingPassword == old(isChangingPassword)
              else
                toast == Some("Password changed successfully!") && passwords == ClearedPasswords && !isChangingPassword
      ensures profile == old(profile) && isEditing == old(isEditing)
    {
      if passwords.newPassword != passwords.confirmPassword {
        return Some("New passwords don't match");
      }
      if |passwords.newPassword| < MinPasswordLength {
        return Some("Password must be at least 6 characters");
      }
      toast := Some("Password changed successfully!");
      isChangingPassword := false;
      passwords := ClearedPasswords;
    }

    /** The Cancel button of the password form. */
    method CancelPasswordChange()
      modifies this
      ensures !isChangingPassword && passwords == ClearedPasswords
      ensures profile == old(profile) && isEditing == old(isEditing)
    {
      isChangingPassword := false;
      passwords := ClearedPasswords;
    }

    /** The Cancel button of the profile form: every edit, toggle and upload
        is dropped, and the form is rebuilt from the auth hook's `user` as it
        is when the button is pressed. */
    method CancelEdit(user: Option<ProtectedRoute.ClientUser>)
      modifies this
      ensures !isEditing && profile == ProfileFor(user)
      ensures user.Some? ==> profile.username == user.value.username && profile.email == user.value.email
      ensures passwords == old(passwords) && isChangingPassword == old(isChangingPassword)
    {
      isEditing := false;
      profile := ProfileFor(user);
    }
  }
}
