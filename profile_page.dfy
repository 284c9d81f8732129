/**
 * The profile page: the user record it loads (or the fallback built from the
 * session), the booking statistics, and the state updates of the profile and
 * password forms. The page's React state is the fields of `ProfilePage`;
 * server answers are method inputs.
 */
module ProfilePage {
  import opened Wrappers
  import opened Fetch
  import opened Text
  import MyBookings

  /** The user fields the page shows. */
  datatype UserInfo = UserInfo(
    name: string, email: string, contact: Option<string>, nid: Option<string>,
    role: string, emailVerified: bool, phoneVerified: bool, nidVerified: bool,
    createdAt: int)

  /** The user as the session knows it; every field but name and email may be absent. */
  datatype SessionUser = SessionUser(
    name: string, email: string, contact: Option<string>, nid: Option<string>,
    role: Option<string>, emailVerified: Option<bool>, phoneVerified: Option<bool>,
    nidVerified: Option<bool>, createdAt: Option<int>)

  datatype Stats = Stats(totalBookings: nat, completedBookings: nat, upcomingBookings: nat)
  datatype UserData = UserData(user: UserInfo, stats: Stats)
  datatype Message = Message(kind: string, text: string)
  datatype ProfileForm = ProfileForm(name: string, contact: string)
  datatype PasswordForm = PasswordForm(currentPassword: string, newPassword: string, confirmPassword: string)

  const NoMessage := Message("", "")
  const EmptyPasswords := PasswordForm("", "", "")
  const NotSet := "Not set"
  const ProfileSaved := "Profile updated successfully!"
  const ProfileFailed := "Failed to update profile"
  const PasswordsDiffer := "New passwords don't match!"
  const PasswordTooShort := "Password must be at least 6 characters long!"
  const PasswordChanged := "Password changed successfully!"
  const PasswordFailed := "Failed to change password"
  const NetworkErrorText := "Network error. Please try again."

  /** The user record built from the session when the profile request fails:
      contact and NID default to "Not set", the role to "user", the
      verification flags to false and the join date to `now`. */
  function FallbackUser(session: SessionUser, now: int): (u: UserInfo)
    ensures u.name == session.name && u.email == session.email
    ensures u.contact == Some(OrElse(session.contact, NotSet))
    ensures u.nid == Some(OrElse(session.nid, NotSet))
    ensures u.role == OrElse(session.role, "user")
    ensures u.emailVerified <==> session.emailVerified == Some(true)
    ensures u.phoneVerified <==> session.phoneVerified == Some(true)
    ensures u.nidVerified <==> session.nidVerified == Some(true)
    ensures u.createdAt == session.createdAt.GetOr(now)
  {
    UserInfo(
      session.name, session.email,
      Some(OrElse(session.contact, NotSet)), Some(OrElse(session.nid, NotSet)),
      OrElse(session.role, "user"),
      session.emailVerified == Some(true), session.phoneVerified == Some(true),
      session.nidVerified == Some(true),
      session.createdAt.GetOr(now))
  }

  /** A session that carries none of the optional fields yields the documented defaults. */
  lemma FallbackDefaults(name: string, email: string, now: int)
    ensures var u := FallbackUser(SessionUser(name, email, None, None, None, None, None, None, None), now);
      u.contact == Some("Not set") && u.nid == Some("Not set") && u.role == "user" &&
      !u.emailVerified && !u.phoneVerified && !u.nidVerified && u.createdAt == now
  {
  }

  /** The statistics `fetchUserProfile` computes from the bookings list: the
      number of bookings, of "Completed" ones and of "Pending" ones. The
      upcoming count is the My Bookings page's pending tally, and the
      completed count is part of its confirmed tally, which also counts
      confirmed bookings. */
  function BookingStats(bookings: seq<MyBookings.Booking>): (st: Stats)
    ensures st.totalBookings == |bookings|
    ensures st.completedBookings == MyBookings.CountWithStatus(bookings, {"Completed"})
    ensures st.upcomingBookings == MyBookings.PendingTally(bookings)
    ensures st.completedBookings <= MyBookings.ConfirmedTally(bookings)
  {
    assert {"Confirmed"} + {"Completed"} == {"Confirmed", "Completed"};
    MyBookings.CountDisjointUnion(bookings, {"Confirmed"}, {"Completed"});
    Stats(
      |bookings|,
      MyBookings.CountWithStatus(bookings, {"Completed"}),
      MyBookings.CountWithStatus(bookings, {"Pending"}))
  }

  /** Completed and upcoming bookings are disjoint parts of the total. */
  lemma StatsBounded(bookings: seq<MyBookings.Booking>)
    ensures var st := BookingStats(bookings);
      st.totalBookings == |bookings| &&
      st.completedBookings + st.upcomingBookings <= st.totalBookings
  {
    MyBookings.CountDisjointUnion(bookings, {"Completed"}, {"Pending"});
  }

  class ProfilePage {
    var loading: bool
    var saving: bool
    var editMode: bool
    var changePasswordMode: bool
    var message: Message
    var userData: Option<UserData>
    var formData: ProfileForm
    var passwordData: PasswordForm

    /** The initial state of the page's hooks. */
    constructor ()
      ensures loading && !saving && !editMode && !changePasswordMode
      ensures message == NoMessage && userData == None
      ensures formData == ProfileForm("", "") && passwordData == EmptyPasswords
    {
      loading, saving, editMode, changePasswordMode := true, false, false, false;
      message, userData := NoMessage, None;
      formData, passwordData := ProfileForm("", ""), EmptyPasswords;
    }

    /** `fetchUserProfile`: loads the user (or falls back to the session),
        loads the bookings (an error answer counts as none), and stores both
        with the statistics. A request that throws stores nothing. Loading
        ends in every case. */
    method FetchUserProfile(session: SessionUser, now: int,
                            userResponse: Response<UserInfo>,
                            bookingsResponse: Response<seq<MyBookings.Booking>>)
      modifies this
      ensures !loading
      ensures saving == old(saving) && editMode == old(editMode)
      ensures changePasswordMode == old(changePasswordMode)
      ensures message == old(message) && passwordData == old(passwordData)
      ensures userResponse.NetworkError? || bookingsResponse.NetworkError? ==>
        userData == old(userData) && formData == old(formData)
      ensures !userResponse.NetworkError? && !bookingsResponse.NetworkError? ==>
        var user := if userResponse.Ok? then userResponse.body else FallbackUser(session, now);
        var bookings := if bookingsResponse.Ok? then bookingsResponse.body else [];
        && userData == Some(UserData(user, BookingStats(bookings)))
        && formData == ProfileForm(user.name, OrElse(user.contact, ""))
    {
      if userResponse.NetworkError? || bookingsResponse.NetworkError? {
        loading := false;
        return;
      }
      var user := if userResponse.Ok? then userResponse.body else FallbackUser(session, now);
      var bookings: seq<MyBookings.Booking> := [];
      if bookingsResponse.Ok? {
        bookings := bookingsResponse.body;
      }
      userData := Some(UserData(user, BookingStats(bookings)));
      formData := ProfileForm(user.name, OrElse(user.contact, ""));
      loading := false;
    }

    /** `handleProfileChange`: one field of the profile form takes the new value. */
    method HandleProfileChange(field: string, value: string)
      modifies this`formData
      ensures formData == if field == "name" then old(formData).(name := value)
                          else if field == "contact" then old(formData).(contact := value)
                          else old(formData)
    {
      if field == "name" {
        formData := formData.(name := value);
      } else if field == "contact" {
        formData := formData.(contact := value);
      }
    }

    /** `handlePasswordChange`: one field of the password form takes the new value. */
    method HandlePasswordChange(field: string, value: string)
      modifies this`passwordData
      ensures passwordData ==
        if field == "currentPassword" then old(passwordData).(currentPassword := value)
        else if field == "newPassword" then old(passwordData).(newPassword := value)
        else if field == "confirmPassword" then old(passwordData).(confirmPassword := value)
        else old(passwordData)
    {
      if field == "currentPassword" {
        passwordData := passwordData.(currentPassword := value);
      } else if field == "newPassword" {
        passwordData := passwordData.(newPassword := value);
      } else if field == "confirmPassword" {
        passwordData := passwordData.(confirmPassword := value);
      }
    }

    /** `handleProfileSubmit`: sends the form; on success the shown user takes
        the form's name and contact and nothing else changes in it (the
        statistics included), and edit mode ends. The form is only on screen
        once a user has been loaded. */
    method HandleProfileSubmit(response: Response<()>) returns (sent: ProfileForm)
      requires userData.Some?
      modifies this
      ensures sent == formData && formData == old(formData)
      ensures !saving && passwordData == old(passwordData)
      ensures changePasswordMode == old(changePasswordMode) && loading == old(loading)
      ensures response.Ok? ==>
        var prev := old(userData).value;
        && userData == Some(prev.(user := prev.user.(name := formData.name, contact := Some(formData.contact))))
        && message == Message("success", ProfileSaved) && !editMode
      ensures !response.Ok? ==> userData == old(userData) && editMode == old(editMode)
      ensures response.Failed? ==> message == Message("error", OrElse(response.message, ProfileFailed))
      ensures response.NetworkError? ==> message == Message("error", NetworkErrorText)
    {
      saving := true;
      message := NoMessage;
      sent := formData;
      match response {
        case Ok(_) =>
          var prev := userData.value;
          userData := Some(prev.(user := prev.user.(name := formData.name, contact := Some(formData.contact))));
          message := Message("success", ProfileSaved);
          editMode := false;
        case Failed(m) =>
          message := Message("error", OrElse(m, ProfileFailed));
        case NetworkError =>
          message := Message("error", NetworkErrorText);
      }
      saving := false;
    }

    /** `handlePasswordSubmit`: a mismatch is reported first, then a new
        password under 6 UTF-16 code units; either stops before any request. After a
        successful change the three fields are cleared. */
    method HandlePasswordSubmit(response: Response<()>) returns (sent: bool)
      modifies this
      ensures sent <==>
        old(passwordData).newPassword == old(passwordData).confirmPassword &&
        JsLength(old(passwordData).newPassword) >= 6
      ensures old(passwordData).newPassword != old(passwordData).confirmPassword ==>
        message == Message("error", PasswordsDiffer)
      ensures old(passwordData).newPassword == old(passwordData).confirmPassword &&
              JsLength(old(passwordData).newPassword) < 6 ==>
        message == Message("error", PasswordTooShort)
      ensures sent && response.Ok? ==>
        passwordData == EmptyPasswords && !changePasswordMode &&
        message == Message("success", PasswordChanged)
      ensures !(sent && response.Ok?) ==>
        passwordData == old(passwordData) && changePasswordMode == old(changePasswordMode)
      ensures sent && response.Failed? ==> message == Message("error", OrElse(response.message, PasswordFailed))
      ensures sent && response.NetworkError? ==> message == Message("error", NetworkErrorText)
      ensures !saving && userData == old(userData) && formData == old(formData)
      ensures editMode == old(editMode) && loading == old(loading)
    {
      saving := true;
      message := NoMessage;
      if passwordData.newPassword != passwordData.confirmPassword {
        message := Message("error", PasswordsDiffer);
        saving := false;
        return false;
      }
      if JsLength(passwordData.newPassword) < 6 {
        message := Message("error", PasswordTooShort);
        saving := false;
        return false;
      }
      sent := true;
      match response {
        case Ok(_) =>
          message := Message("success", PasswordChanged);
          passwordData := EmptyPasswords;
          changePasswordMode := false;
        case Failed(m) =>
          message := Message("error", OrElse(m, PasswordFailed));
        case NetworkError =>
          message := Message("error", NetworkErrorText);
      }
      saving := false;
    }
  }
}
