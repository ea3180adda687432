/**
 * The signed-in session: who is logged in, the loading flag and error message
 * of the login form, and the user's notifications (the latest applause
 * received and the badges earned), with their read marks.
 */
module AuthContext {
  import opened Js
  import opened Seqs
  import opened Types
  import opened Constants
  import opened BadgeUtils

  const DataNotLoadedMessage := "Los datos de la aplicación no se pudieron cargar. Inténtalo de nuevo."
  const BadCredentialsMessage := "Correo electrónico o contraseña incorrectos."

  // ---------------------------------------------------------------------------
  // Credentials

  /** `u.email.toLowerCase() === email.toLowerCase()` */
  predicate EmailMatches(u: User, email: string)
  {
    ToLower(u.email) == ToLower(email)
  }

  /** `users[i]` is the first user whose e-mail matches. */
  predicate IsFirstMatch(users: seq<User>, email: string, i: int)
  {
    0 <= i < |users| && EmailMatches(users[i], email)
    && forall j :: 0 <= j < i ==> !EmailMatches(users[j], email)
  }

  /** `users.find(...)`: the first user whose e-mail matches, ignoring case. */
  function FindByEmail(users: seq<User>, email: string): (found: Option<User>)
    ensures found.None? <==> forall i :: 0 <= i < |users| ==> !EmailMatches(users[i], email)
    ensures found.Some? ==> exists i :: IsFirstMatch(users, email, i) && users[i] == found.value
  {
    if users == [] then None
    else if EmailMatches(users[0], email) then
      assert IsFirstMatch(users, email, 0);
      Some(users[0])
    else
      var found := FindByEmail(users[1..], email);
      FirstMatchAfterHead(users, email, found);
      found
  }

  lemma FirstMatchAfterHead(users: seq<User>, email: string, found: Option<User>)
    requires users != [] && !EmailMatches(users[0], email)
    requires found.Some? ==> exists i :: IsFirstMatch(users[1..], email, i) && users[1..][i] == found.value
    ensures found.Some? ==> exists i :: IsFirstMatch(users, email, i) && users[i] == found.value
  {
    if found.Some? {
      var i :| IsFirstMatch(users[1..], email, i) && users[1..][i] == found.value;
      assert users[i + 1] == found.value;
      forall j | 0 <= j < i + 1
        ensures !EmailMatches(users[j], email)
      {
        if j > 0 {
          assert users[j] == users[1..][j - 1];
        }
      }
      assert IsFirstMatch(users, email, i + 1);
    }
  }

  /** The check `login` makes once the data is there: a user found, active, and holding that password. */
  predicate CredentialsAccepted(users: seq<User>, email: string, password: Option<string>)
  {
    var found := FindByEmail(users, email);
    found.Some? && found.value.estado == Activo && password == Some(found.value.claveHash)
  }

  /**
   * Only the first account with a matching e-mail is ever checked: the
   * credentials are accepted exactly when that account is active and the
   * password is its `clave_hash`; a missing password is never accepted.
   */
  lemma FirstAccountDecides(users: seq<User>, email: string, password: Option<string>, i: nat)
    requires IsFirstMatch(users, email, i)
    ensures CredentialsAccepted(users, email, password)
      <==> users[i].estado == Activo && password == Some(users[i].claveHash)
  {
    var found := FindByEmail(users, email);
    var k :| IsFirstMatch(users, email, k) && users[k] == found.value;
    assert k == i;
  }

  /** Nobody logs in with an e-mail that no user has. */
  lemma UnknownEmailRejected(users: seq<User>, email: string, password: Option<string>)
    requires forall i :: 0 <= i < |users| ==> !EmailMatches(users[i], email)
    ensures !CredentialsAccepted(users, email, password)
  {
  }

  // ---------------------------------------------------------------------------
  // Notifications

  const SomeoneName := "alguien"
  const ApplauseIdPrefix := "applause-"
  const BadgeIdPrefix := "badge-"
  const IdSeparator := "-"
  const ApplauseMessagePrefix := "Recibiste una Milla Extra de "
  const ApplauseMessageSuffix := "."
  const BadgeMessagePrefix := "¡Felicidades! Ganaste la insignia \""
  const BadgeMessageSuffix := "\"."
  /** `received.slice(-5)` */
  const RecentApplauseCount: nat := 5

  /**
   * `users.find(u => u.usuario_id === id)?.nombre || 'alguien'`: the first user with
   * the id names the sender, and "alguien" stands in for an unknown id or a blank name.
   */
  function SenderName(users: seq<User>, id: string): string
  {
    if users == [] then SomeoneName
    else if users[0].usuarioId == id then (if users[0].nombre == "" then SomeoneName else users[0].nombre)
    else SenderName(users[1..], id)
  }

  /** The sender's name is never empty, and it comes from the first user with the id. */
  lemma {:induction false} SenderNameMeaning(users: seq<User>, id: string)
    ensures (forall i :: 0 <= i < |users| ==> users[i].usuarioId != id) ==> SenderName(users, id) == SomeoneName
    ensures forall i :: FirstUserWithId(users, id, i) ==>
      SenderName(users, id) == if users[i].nombre == "" then SomeoneName else users[i].nombre
    ensures SenderName(users, id) != ""
  {
    if users != [] && users[0].usuarioId != id {
      SenderNameMeaning(users[1..], id);
      assert forall i :: 1 <= i < |users| ==> users[i] == users[1..][i - 1];
    }
  }

  /** The notice of one applause received. */
  function ApplauseNotification(a: Applause, users: seq<User>): Notification
  {
    Notification(ApplauseIdPrefix + a.aplausoId, ApplauseNotice,
      ApplauseMessagePrefix + SenderName(users, a.otorganteId) + ApplauseMessageSuffix,
      a.fecha, false, a.aplausoId)
  }

  /** `b.earned && b.earnedDate`: earned, with a date that is not empty. */
  predicate ShowsBadge(b: EarnedBadge)
  {
    b.earned && b.earnedDate.Some? && b.earnedDate.value != ""
  }

  /** The notice of one earned badge. */
  function BadgeNotification(b: EarnedBadge, userId: string): Notification
    requires b.earnedDate.Some?
  {
    Notification(BadgeIdPrefix + b.name + IdSeparator + userId, BadgeNotice,
      BadgeMessagePrefix + b.name + BadgeMessageSuffix,
      b.earnedDate.value, false, b.principle)
  }

  /** The notices pushed for the recent applause, in order. */
  function ApplauseNotifications(recent: seq<Applause>, users: seq<User>): (ns: seq<Notification>)
    ensures |ns| == |recent|
    ensures forall i :: 0 <= i < |recent| ==> ns[i] == ApplauseNotification(recent[i], users)
  {
    if recent == [] then []
    else
      ApplauseNotifications(recent[..|recent| - 1], users) + [ApplauseNotification(recent[|recent| - 1], users)]
  }

  /** The notices pushed for the badges shown, in badge order. */
  function BadgeNotifications(badges: seq<EarnedBadge>, userId: string): (ns: seq<Notification>)
    ensures |ns| == CountBy(badges, ShowsBadge)
    ensures forall n :: n in ns <==> exists b :: b in badges && ShowsBadge(b) && n == BadgeNotification(b, userId)
  {
    if badges == [] then []
    else
      var b := badges[|badges| - 1];
      var init := badges[..|badges| - 1];
      var rest := BadgeNotifications(init, userId);
      assert badges == init + [b];
      CountByConcat(init, [b], ShowsBadge);
      if ShowsBadge(b) then rest + [BadgeNotification(b, userId)] else rest
  }

  /** `(a, b) => new Date(b.date).getTime() - new Date(a.date).getTime()`: newest first. */
  function NewestFirst(timeOf: string -> int): Notification -> int
  {
    (n: Notification) => -timeOf(n.date)
  }

  /** The list the effect stores for a signed-in user once the data is loaded. */
  function NotificationsFor(userId: string, users: seq<User>, applause: seq<Applause>, timeOf: string -> int): seq<Notification>
  {
    var received := Filter(applause, ReceivedBy(userId));
    var recent := JsSlice(received, -(RecentApplauseCount as int), |received|);
    SortBy(ApplauseNotifications(recent, users) + BadgeNotifications(EarnedBadges(received, timeOf), userId),
      NewestFirst(timeOf))
  }

  /** The effect's body: the notices are pushed, applause first, then the list is sorted. */
  method BuildNotifications(userId: string, users: seq<User>, applause: seq<Applause>, timeOf: string -> int)
    returns (ns: seq<Notification>)
    ensures ns == NotificationsFor(userId, users, applause, timeOf)
  {
    var received := Filter(applause, ReceivedBy(userId));
    var recent := JsSlice(received, -(RecentApplauseCount as int), |received|);
    var newNotifications := PushApplauseNotices(recent, users);
    var earnedBadges := CalculateEarnedBadges(received, timeOf);
    newNotifications := PushBadgeNotices(newNotifications, earnedBadges, userId);
    ns := SortBy(newNotifications, NewestFirst(timeOf));
  }

  /** `received.slice(-5).forEach(...)`: one notice pushed per recent applause. */
  method PushApplauseNotices(recent: seq<Applause>, users: seq<User>) returns (ns: seq<Notification>)
    ensures ns == ApplauseNotifications(recent, users)
  {
    ns := [];
    for i := 0 to |recent|
      invariant ns == ApplauseNotifications(recent[..i], users)
    {
      ApplauseNotificationsStep(recent, users, i);
      ns := ns + [ApplauseNotification(recent[i], users)];
    }
    assert recent[..|recent|] == recent;
  }

  /** `userBadges.forEach(...)`: one notice pushed per badge earned with a date. */
  method PushBadgeNotices(start: seq<Notification>, badges: seq<EarnedBadge>, userId: string)
    returns (ns: seq<Notification>)
    ensures ns == start + BadgeNotifications(badges, userId)
  {
    ns := start;
    for i := 0 to |badges|
      invariant ns == start + BadgeNotifications(badges[..i], userId)
    {
      BadgeNotificationsStep(badges, userId, i);
      if ShowsBadge(badges[i]) {
        ns := ns + [BadgeNotification(badges[i], userId)];
      }
    }
    assert badges[..|badges|] == badges;
  }

  lemma ApplauseNotificationsStep(recent: seq<Applause>, users: seq<User>, i: nat)
    requires i < |recent|
    ensures ApplauseNotifications(recent[..i + 1], users)
      == ApplauseNotifications(recent[..i], users) + [ApplauseNotification(recent[i], users)]
  {
    assert recent[..i + 1][..i] == recent[..i];
  }

  lemma BadgeNotificationsStep(badges: seq<EarnedBadge>, userId: string, i: nat)
    requires i < |badges|
    ensures BadgeNotifications(badges[..i + 1], userId)
      == BadgeNotifications(badges[..i], userId)
        + if ShowsBadge(badges[i]) then [BadgeNotification(badges[i], userId)] else []
  {
    assert badges[..i + 1][..i] == badges[..i];
  }

  /** The most recent five received applause, or all of them when there are fewer. */
  lemma RecentIsLastFive(received: seq<Applause>)
    ensures var recent := JsSlice(received, -(RecentApplauseCount as int), |received|);
      |recent| == (if |received| < RecentApplauseCount then |received| else RecentApplauseCount)
      && recent == received[|received| - |recent|..]
  {
  }

  /**
   * The notifications are newest first, all unread, and hold one notice per
   * recent applause plus one per badge shown, so never more than
   * 5 + |BadgeDefinitions| of them.
   */
  lemma NotificationsShape(userId: string, users: seq<User>, applause: seq<Applause>, timeOf: string -> int)
    ensures var ns := NotificationsFor(userId, users, applause, timeOf);
      var received := Filter(applause, ReceivedBy(userId));
      (forall i, j :: 0 <= i < j < |ns| ==> timeOf(ns[i].date) >= timeOf(ns[j].date))
      && (forall i :: 0 <= i < |ns| ==> !ns[i].read)
      && |ns| == (if |received| < RecentApplauseCount then |received| else RecentApplauseCount)
        + CountBy(EarnedBadges(received, timeOf), ShowsBadge)
      && |ns| <= RecentApplauseCount + |BadgeDefinitions|
  {
    var received := Filter(applause, ReceivedBy(userId));
    var recent := JsSlice(received, -(RecentApplauseCount as int), |received|);
    var unsorted := ApplauseNotifications(recent, users) + BadgeNotifications(EarnedBadges(received, timeOf), userId);
    var ns := SortBy(unsorted, NewestFirst(timeOf));
    RecentIsLastFive(received);
    forall i, j | 0 <= i < j < |ns|
      ensures timeOf(ns[i].date) >= timeOf(ns[j].date)
    {
      assert NewestFirst(timeOf)(ns[i]) <= NewestFirst(timeOf)(ns[j]);
    }
    forall i | 0 <= i < |ns|
      ensures !ns[i].read
    {
      assert ns[i] in multiset(unsorted);
      UnsortedUnread(recent, users, EarnedBadges(received, timeOf), userId, ns[i]);
    }
  }

  lemma UnsortedUnread(recent: seq<Applause>, users: seq<User>, badges: seq<EarnedBadge>, userId: string, n: Notification)
    requires n in ApplauseNotifications(recent, users) + BadgeNotifications(badges, userId)
    ensures !n.read
  {
    if n in ApplauseNotifications(recent, users) {
      var i :| 0 <= i < |recent| && ApplauseNotifications(recent, users)[i] == n;
    }
  }

  /**
   * Each applause notice stands for one of the recent applause received, and
   * each badge notice for a badge earned with a date.
   */
  lemma NotificationSources(userId: string, users: seq<User>, applause: seq<Applause>, timeOf: string -> int, n: Notification)
    requires n in NotificationsFor(userId, users, applause, timeOf)
    ensures var received := Filter(applause, ReceivedBy(userId));
      var recent := JsSlice(received, -(RecentApplauseCount as int), |received|);
      (exists a :: a in recent && n == ApplauseNotification(a, users))
      || (exists b :: b in EarnedBadges(received, timeOf) && ShowsBadge(b) && n == BadgeNotification(b, userId))
  {
    var received := Filter(applause, ReceivedBy(userId));
    var recent := JsSlice(received, -(RecentApplauseCount as int), |received|);
    var badges := EarnedBadges(received, timeOf);
    var unsorted := ApplauseNotifications(recent, users) + BadgeNotifications(badges, userId);
    assert n in multiset(unsorted);
    UnsortedSources(recent, users, badges, userId, n);
  }

  lemma UnsortedSources(recent: seq<Applause>, users: seq<User>, badges: seq<EarnedBadge>, userId: string, n: Notification)
    requires n in ApplauseNotifications(recent, users) + BadgeNotifications(badges, userId)
    ensures (exists a :: a in recent && n == ApplauseNotification(a, users))
      || (exists b :: b in badges && ShowsBadge(b) && n == BadgeNotification(b, userId))
  {
    if n in ApplauseNotifications(recent, users) {
      var i :| 0 <= i < |recent| && ApplauseNotifications(recent, users)[i] == n;
      assert recent[i] in recent;
    }
  }

  // ---------------------------------------------------------------------------
  // The session

  predicate IsUnread(n: Notification)
  {
    !n.read
  }

  /** `{...n, read: true}` */
  function MarkedRead(n: Notification): Notification
  {
    n.(read := true)
  }

  class AuthSession {
    var user: Option<User>
    var loading: bool
    var error: Option<string>
    var notifications: seq<Notification>

    constructor()
      ensures user == None && !loading && error == None && notifications == []
    {
      user := None;
      loading := false;
      error := None;
      notifications := [];
    }

    /** `unreadCount`: the notices not yet read; none exactly when every notice is read. */
    function UnreadCount(): (n: nat)
      reads this
      ensures n <= |notifications|
      ensures n == 0 <==> forall i :: 0 <= i < |notifications| ==> notifications[i].read
    {
      CountByZero(notifications, IsUnread);
      CountBy(notifications, IsUnread)
    }

    /**
     * `login` once its wait for the data is over: `dataLoading` is whether
     * the data is still loading then. The error is cleared first; on success
     * the found user is signed in, otherwise the user stays as it was and the
     * error explains why.
     */
    method Login(users: seq<User>, dataLoading: bool, email: string, password: Option<string>) returns (ok: bool)
      modifies this
      ensures ok <==> !dataLoading && CredentialsAccepted(users, email, password)
      ensures ok ==> user == FindByEmail(users, email) && error == None
      ensures !ok ==> user == old(user)
      ensures !ok && dataLoading ==> error == Some(DataNotLoadedMessage)
      ensures !ok && !dataLoading ==> error == Some(BadCredentialsMessage)
      ensures !loading && notifications == old(notifications)
    {
      loading := true;
      error := None;
      if dataLoading {
        error := Some(DataNotLoadedMessage);
        loading := false;
        return false;
      }
      var foundUser := FindByEmail(users, email);
      if foundUser.Some? && foundUser.value.estado == Activo && password == Some(foundUser.value.claveHash) {
        user := foundUser;
        loading := false;
        ok := true;
      } else {
        error := Some(BadCredentialsMessage);
        loading := false;
        ok := false;
      }
    }

    /** `logout` */
    method Logout()
      modifies this
      ensures user == None && notifications == []
      ensures loading == old(loading) && error == old(error)
    {
      user := None;
      notifications := [];
    }

    /** `markNotificationsAsRead`: the same notices in the same order, every one read. */
    method MarkNotificationsAsRead()
      modifies this
      ensures |notifications| == |old(notifications)|
      ensures forall i :: 0 <= i < |notifications| ==> notifications[i] == MarkedRead(old(notifications)[i])
      ensures UnreadCount() == 0
      ensures user == old(user) && loading == old(loading) && error == old(error)
    {
      notifications := MapSeq(notifications, MarkedRead);
      CountByNone(notifications, IsUnread);
    }

    /** The effect that runs when the user or the data changes: only a signed-in user with loaded data gets notices. */
    method RefreshNotifications(users: seq<User>, applause: seq<Applause>, dataLoading: bool, timeOf: string -> int)
      modifies this
      ensures user.Some? && !dataLoading ==>
        notifications == NotificationsFor(user.value.usuarioId, users, applause, timeOf)
      ensures !(user.Some? && !dataLoading) ==> notifications == old(notifications)
      ensures user == old(user) && loading == old(loading) && error == old(error)
    {
      if user.Some? && !dataLoading {
        notifications := BuildNotifications(user.value.usuarioId, users, applause, timeOf);
      }
    }
  }
}
