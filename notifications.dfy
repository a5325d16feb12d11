/**
 * The notification provider of `src/context/NotificationsContext.js`. When a user is signed
 * in it announces every movie released after today's midnight, then the membership-fee
 * message, skipping any message already in the user's history; afterwards it loads the
 * history as the list of notifications.
 *
 * The HTTP calls are replaced by their outcomes, passed in as parameters: the movie list
 * (or a failure), the profile read before posting, and the profile read afterwards. The
 * POSTs are recorded in an outbox field. Dates are integer milliseconds.
 */
module Notifications {
  import opened Wrappers

  const MembershipMessage: string := "Membership fee automatically withdrawn"
  const ComingOutOn: string := " is coming out on "

  /** A movie from the movie list; `releaseTime` is the instant its `releaseDate` string
      denotes, or None when that string is not a date (an invalid Date compares false). */
  datatype Movie = Movie(movieTitle: string, releaseDate: string, releaseTime: Option<int>)

  /** The outcome of fetching a user's profile. */
  datatype ProfileResponse =
    | FetchFailed                                              // network error, non-OK status or bad JSON
    | Profile(notificationHistory: Option<seq<string>>)        // the messages of the history, if present

  datatype Notification = Notification(id: nat, message: string)

  datatype Post = Post(userID: string, message: string)

  /** `if (userID)`: a user ID that is neither null nor empty. */
  predicate IsSignedIn(userID: Option<string>)
  {
    userID.Some? && userID.value != ""
  }

  // ---------------------------------------------------------------------------
  // Choosing what to post

  /** The release date lies strictly after today's midnight. */
  predicate IsFuture(m: Movie, todayMidnight: int)
  {
    m.releaseTime.Some? && m.releaseTime.value > todayMidnight
  }

  /** `movies.filter(movie => new Date(movie.releaseDate) > today)`. */
  function FutureMovies(movies: seq<Movie>, todayMidnight: int): (future: seq<Movie>)
    ensures |future| <= |movies|
    ensures forall m :: m in future <==> m in movies && IsFuture(m, todayMidnight)
  {
    if movies == [] then []
    else
      var rest := FutureMovies(movies[..|movies| - 1], todayMidnight);
      var last := movies[|movies| - 1];
      assert movies == movies[..|movies| - 1] + [last];
      if IsFuture(last, todayMidnight) then rest + [last] else rest
  }

  /** The announcement of one movie. */
  function Announcement(m: Movie): (message: string)
    ensures |message| == |m.movieTitle| + |ComingOutOn| + |m.releaseDate|
    ensures message[|m.movieTitle|..|m.movieTitle| + |ComingOutOn|] == ComingOutOn
  {
    var message := m.movieTitle + ComingOutOn + m.releaseDate;
    assert message[|m.movieTitle|..|m.movieTitle| + |ComingOutOn|] == ComingOutOn;
    message
  }

  /** The announcements the loop posts for `movies`, in order, given the messages that
      existed before the loop started (that list is not updated as the loop posts). */
  function AnnouncementsToPost(movies: seq<Movie>, existing: seq<string>): (posts: seq<string>)
    ensures |posts| <= |movies|
    ensures forall msg :: msg in posts ==> msg !in existing
    ensures forall msg :: msg in posts ==> exists m :: m in movies && msg == Announcement(m)
  {
    if movies == [] then []
    else
      var rest := AnnouncementsToPost(movies[..|movies| - 1], existing);
      var message := Announcement(movies[|movies| - 1]);
      assert forall m :: m in movies[..|movies| - 1] ==> m in movies;
      if message !in existing then rest + [message] else rest
  }

  /** Filtering a list in two parts filters each part in turn: the kept movies stay in list
      order, a repeated movie is kept as often as it appears. */
  lemma {:induction false} FutureMoviesAppend(a: seq<Movie>, b: seq<Movie>, todayMidnight: int)
    ensures FutureMovies(a + b, todayMidnight) == FutureMovies(a, todayMidnight) + FutureMovies(b, todayMidnight)
  {
    if b == [] {
      assert a + b == a;
    } else {
      var b' := b[..|b| - 1];
      assert (a + b)[..|a + b| - 1] == a + b';
      assert (a + b)[|a + b| - 1] == b[|b| - 1];
      FutureMoviesAppend(a, b', todayMidnight);
    }
  }

  /** One movie is kept exactly when it is released after today's midnight. */
  lemma FutureMoviesSingle(m: Movie, todayMidnight: int)
    ensures FutureMovies([m], todayMidnight) == if IsFuture(m, todayMidnight) then [m] else []
  {
    assert [m][..0] == [];
  }

  /** Announcing a list in two parts announces each part in turn, against the same history. */
  lemma {:induction false} AnnouncementsToPostAppend(a: seq<Movie>, b: seq<Movie>, existing: seq<string>)
    ensures AnnouncementsToPost(a + b, existing) == AnnouncementsToPost(a, existing) + AnnouncementsToPost(b, existing)
  {
    if b == [] {
      assert a + b == a;
    } else {
      var b' := b[..|b| - 1];
      assert (a + b)[..|a + b| - 1] == a + b';
      assert (a + b)[|a + b| - 1] == b[|b| - 1];
      AnnouncementsToPostAppend(a, b', existing);
    }
  }

  /** One movie is announced exactly when its announcement is not in the history. */
  lemma AnnouncementsToPostSingle(m: Movie, existing: seq<string>)
    ensures AnnouncementsToPost([m], existing) == if Announcement(m) !in existing then [Announcement(m)] else []
  {
    assert [m][..0] == [];
  }

  /** Every movie whose announcement is not in the history is announced. */
  lemma {:induction false} AnnouncementsToPostComplete(movies: seq<Movie>, existing: seq<string>, m: Movie)
    requires m in movies && Announcement(m) !in existing
    ensures Announcement(m) in AnnouncementsToPost(movies, existing)
  {
    var last := movies[|movies| - 1];
    if m != last {
      assert movies == movies[..|movies| - 1] + [last];
      AnnouncementsToPostComplete(movies[..|movies| - 1], existing, m);
    }
  }

  /** Every message the provider posts, in posting order. */
  function PlannedMessages(movies: seq<Movie>, existing: seq<string>, todayMidnight: int): (posts: seq<string>)
    ensures |posts| <= |movies| + 1
  {
    AnnouncementsToPost(FutureMovies(movies, todayMidnight), existing)
      + (if MembershipMessage !in existing then [MembershipMessage] else [])
  }

  /** No announcement can read as the membership message. */
  lemma AnnouncementIsNotMembership(m: Movie)
    ensures Announcement(m) != MembershipMessage
  {
    var a := Announcement(m);
    var t := |m.movieTitle|;
    assert a[t] == ' ' && a[t + 1] == 'i';
    MembershipHasNoSpaceI();
  }

  /** Nowhere in the membership message does a space precede an 'i'. */
  lemma MembershipHasNoSpaceI()
    ensures forall t :: 0 <= t < |MembershipMessage| - 1 && MembershipMessage[t] == ' ' ==> MembershipMessage[t + 1] != 'i'
  {
  }

  /** A message already in the history is never posted; every posted message announces a
      movie released after today, or is the membership message. */
  lemma PlannedMessagesFresh(movies: seq<Movie>, existing: seq<string>, todayMidnight: int)
    ensures forall msg :: msg in PlannedMessages(movies, existing, todayMidnight) ==> msg !in existing
    ensures forall msg :: msg in PlannedMessages(movies, existing, todayMidnight) ==>
      msg == MembershipMessage ||
      exists m :: m in movies && IsFuture(m, todayMidnight) && msg == Announcement(m)
  {
  }

  /** Every movie released after today whose announcement is not in the history is announced,
      before the membership message. */
  lemma PlannedMessagesComplete(movies: seq<Movie>, existing: seq<string>, todayMidnight: int, m: Movie)
    requires m in movies && IsFuture(m, todayMidnight) && Announcement(m) !in existing
    ensures Announcement(m) in PlannedMessages(movies, existing, todayMidnight)
    ensures Announcement(m) in AnnouncementsToPost(FutureMovies(movies, todayMidnight), existing)
  {
    AnnouncementsToPostComplete(FutureMovies(movies, todayMidnight), existing, m);
  }

  /** Posting follows the movie list: the messages for a list in two parts are those of the
      first part's movies, then the second part's, then the membership message. */
  lemma PlannedMessagesInMovieOrder(a: seq<Movie>, b: seq<Movie>, existing: seq<string>, todayMidnight: int)
    ensures PlannedMessages(a + b, existing, todayMidnight) ==
      AnnouncementsToPost(FutureMovies(a, todayMidnight), existing)
      + AnnouncementsToPost(FutureMovies(b, todayMidnight), existing)
      + (if MembershipMessage !in existing then [MembershipMessage] else [])
  {
    FutureMoviesAppend(a, b, todayMidnight);
    AnnouncementsToPostAppend(FutureMovies(a, todayMidnight), FutureMovies(b, todayMidnight), existing);
  }

  /** The membership message is posted only when the history lacks it, then exactly once,
      and after every movie announcement. */
  lemma MembershipPostedOnceAndLast(movies: seq<Movie>, existing: seq<string>, todayMidnight: int)
    ensures var posts := PlannedMessages(movies, existing, todayMidnight);
      && (MembershipMessage in posts <==> MembershipMessage !in existing)
      && (MembershipMessage in posts ==> posts[|posts| - 1] == MembershipMessage)
      && multiset(posts)[MembershipMessage] <= 1
  {
    var anns := AnnouncementsToPost(FutureMovies(movies, todayMidnight), existing);
    forall msg | msg in anns ensures msg != MembershipMessage {
      var m :| m in FutureMovies(movies, todayMidnight) && msg == Announcement(m);
      AnnouncementIsNotMembership(m);
    }
    var tail: seq<string> := if MembershipMessage !in existing then [MembershipMessage] else [];
    assert PlannedMessages(movies, existing, todayMidnight) == anns + tail;
    assert multiset(anns + tail) == multiset(anns) + multiset(tail);
    assert MembershipMessage !in anns;
    assert MembershipMessage !in multiset(anns);
  }

  /** Two future movies with the same title and release date are both announced: the list of
      existing messages is read once, before the loop. */
  lemma DuplicateAnnouncementsBothPosted(m: Movie, todayMidnight: int)
    requires IsFuture(m, todayMidnight)
    ensures PlannedMessages([m, m], [], todayMidnight) == [Announcement(m), Announcement(m), MembershipMessage]
  {
    assert [m, m][..1] == [m];
    assert [m][..0] == [];
    assert FutureMovies([m], todayMidnight) == [m];
    assert FutureMovies([m, m], todayMidnight) == [m, m];
    assert AnnouncementsToPost([m], []) == [Announcement(m)];
    assert AnnouncementsToPost([m, m], []) == [Announcement(m), Announcement(m)];
  }

  // ---------------------------------------------------------------------------
  // Loading the history

  /** `notificationHistory.map((notif, index) => ({ id: index, message: notif.message }))`. */
  function NumberHistory(history: seq<string>): (ns: seq<Notification>)
    ensures |ns| == |history|
    ensures forall i :: 0 <= i < |ns| ==> ns[i].id == i && ns[i].message == history[i]
  {
    seq(|history|, i requires 0 <= i < |history| => Notification(i, history[i]))
  }

  function Messages(ns: seq<Notification>): (msgs: seq<string>)
    ensures |msgs| == |ns|
  {
    seq(|ns|, i requires 0 <= i < |ns| => ns[i].message)
  }

  /** Numbering keeps every message, in history order, and gives pairwise different ids. */
  lemma NumberHistoryKeepsMessages(history: seq<string>)
    ensures Messages(NumberHistory(history)) == history
    ensures forall i, j :: 0 <= i < j < |history| ==> NumberHistory(history)[i].id != NumberHistory(history)[j].id
  {
  }

  /** What `fetchNotifications` stores: the numbered history, or nothing on any failure. */
  function FetchedNotifications(response: ProfileResponse): (ns: seq<Notification>)
    ensures response.FetchFailed? ==> ns == []
    ensures response.Profile? && response.notificationHistory.None? ==> ns == []
    ensures response.Profile? && response.notificationHistory.Some? ==>
      Messages(ns) == response.notificationHistory.value
  {
    match response
    case FetchFailed => []
    case Profile(None) => []
    case Profile(Some(history)) =>
      NumberHistoryKeepsMessages(history);
      NumberHistory(history)
  }

  // ---------------------------------------------------------------------------
  // The provider

  function PostsFor(userID: string, messages: seq<string>): (posts: seq<Post>)
    ensures |posts| == |messages|
    ensures forall i :: 0 <= i < |posts| ==> posts[i] == Post(userID, messages[i])
  {
    seq(|messages|, i requires 0 <= i < |messages| => Post(userID, messages[i]))
  }

  class NotificationsProvider {
    var notifications: seq<Notification>
    /** Every POST to the notifications endpoint, in order. */
    var outbox: seq<Post>

    constructor ()
      ensures notifications == [] && outbox == []
    {
      notifications := [];
      outbox := [];
    }

    /** `fetchNotifications` with the profile response it receives. */
    method FetchNotifications(userID: Option<string>, response: ProfileResponse)
      modifies this
      ensures notifications == if IsSignedIn(userID) then FetchedNotifications(response) else old(notifications)
      ensures outbox == old(outbox)
    {
      if IsSignedIn(userID) {
        match response {
          case FetchFailed =>
            notifications := [];
          case Profile(history) =>
            if history.Some? {
              notifications := seq(|history.value|, i requires 0 <= i < |history.value| =>
                Notification(i, history.value[i]));
            } else {
              notifications := [];
            }
        }
      }
    }

    /** `initializeNotifications`: post what is missing, then load the history. A failed movie
        fetch or a profile without a history ends the posting step early (the exception is
        caught); the history is loaded in every case. */
    method InitializeNotifications(
      userID: Option<string>,
      movies: Option<seq<Movie>>,
      profile: ProfileResponse,
      todayMidnight: int,
      refreshed: ProfileResponse)
      modifies this
      ensures !IsSignedIn(userID) ==> outbox == old(outbox) && notifications == old(notifications)
      ensures IsSignedIn(userID) ==> notifications == FetchedNotifications(refreshed)
      ensures IsSignedIn(userID) && movies.Some? && profile.Profile? && profile.notificationHistory.Some? ==>
        outbox == old(outbox) + PostsFor(userID.value,
          PlannedMessages(movies.value, profile.notificationHistory.value, todayMidnight))
      ensures !(movies.Some? && profile.Profile? && profile.notificationHistory.Some?) ==> outbox == old(outbox)
    {
      if !IsSignedIn(userID) {
        return;
      }
      var uid := userID.value;
      if movies.Some? && profile.Profile? && profile.notificationHistory.Some? {
        var future := FutureMovies(movies.value, todayMidnight);
        var existingMessages := profile.notificationHistory.value;
        var i := 0;
        while i < |future|
          invariant 0 <= i <= |future|
          invariant outbox == old(outbox) + PostsFor(uid, AnnouncementsToPost(future[..i], existingMessages))
        {
          var message := future[i].movieTitle + ComingOutOn + future[i].releaseDate;
          assert future[..i + 1][..i] == future[..i];
          if message !in existingMessages {
            outbox := outbox + [Post(uid, message)];
          }
          i := i + 1;
        }
        assert future[..|future|] == future;
        if MembershipMessage !in existingMessages {
          outbox := outbox + [Post(uid, MembershipMessage)];
        }
      }
      FetchNotifications(userID, refreshed);
    }
  }
}
