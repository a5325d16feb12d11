/**
 * The header bar of `src/pages/App.js`: the search box and its submit guard, the
 * notification dropdown showing the newest four notifications, the choice of buttons for a
 * signed-in or signed-out visitor, and logout. Navigation is recorded, not performed.
 */
module App {
  import opened Wrappers
  import opened Strings
  import Search
  import Notifications
  import Auth

  const SearchPathPrefix: string := "/search?query="
  const NoNotificationsText: string := "No notifications"
  /** How many notifications the dropdown shows. */
  const DropdownSize: nat := 4

  /** A call to `navigate`: the path and the `query` carried in the navigation state, if any. */
  datatype Navigation = Navigation(path: string, stateQuery: Option<string>)

  // ---------------------------------------------------------------------------
  // Search box

  /** What `handleSearchSubmit` navigates to: nothing for a blank query, otherwise the search
      page with the trimmed query URL-encoded in the path and no navigation state. */
  function SearchNavigations(searchQuery: string): (navs: seq<Navigation>)
    ensures |navs| <= 1
    ensures navs == [] <==> forall i :: 0 <= i < |searchQuery| ==> IsWhiteSpace(searchQuery[i])
    ensures navs != [] ==>
      navs[0] == Navigation(SearchPathPrefix + EncodeUriComponent(Trim(searchQuery)), None)
  {
    var trimmed := Trim(searchQuery);
    if trimmed != "" then [Navigation(SearchPathPrefix + EncodeUriComponent(trimmed), None)] else []
  }

  /** The query the search page reads after a navigation. */
  function QueryOnArrival(nav: Navigation): (query: string)
  {
    Search.QueryOf(nav.stateQuery)
  }

  /** The header search carries the query only in the URL, which the search page does not
      read: every header search arrives as the empty query and lists every movie. */
  lemma HeaderSearchArrivesEmpty(searchQuery: string)
    requires Trim(searchQuery) != ""
    ensures |SearchNavigations(searchQuery)| == 1
    ensures QueryOnArrival(SearchNavigations(searchQuery)[0]) == ""
    ensures Search.Filter(Search.AllMovies, QueryOnArrival(SearchNavigations(searchQuery)[0])) == Search.AllMovies
  {
    Search.MissingQueryListsAll();
  }

  /** The header search as evidently intended: the trimmed query also travels in the
      navigation state, where the search page looks for it. */
  function IntendedSearchNavigations(searchQuery: string): (navs: seq<Navigation>)
    ensures |navs| == |SearchNavigations(searchQuery)|
    ensures navs != [] ==> navs[0].path == SearchNavigations(searchQuery)[0].path
  {
    var trimmed := Trim(searchQuery);
    if trimmed != "" then [Navigation(SearchPathPrefix + EncodeUriComponent(trimmed), Some(trimmed))] else []
  }

  /** With the intended navigation the search page filters by exactly the trimmed query. */
  lemma IntendedSearchFiltersByQuery(searchQuery: string)
    requires Trim(searchQuery) != ""
    ensures |IntendedSearchNavigations(searchQuery)| == 1
    ensures QueryOnArrival(IntendedSearchNavigations(searchQuery)[0]) == Trim(searchQuery)
    ensures forall m :: m in Search.Filter(Search.AllMovies, QueryOnArrival(IntendedSearchNavigations(searchQuery)[0])) <==>
      m in Search.AllMovies && Search.Matches(m, Trim(searchQuery))
  {
  }

  // ---------------------------------------------------------------------------
  // Notification dropdown

  function Reverse<T>(xs: seq<T>): (r: seq<T>)
    ensures |r| == |xs|
    ensures forall i :: 0 <= i < |r| ==> r[i] == xs[|xs| - 1 - i]
  {
    if xs == [] then [] else [xs[|xs| - 1]] + Reverse(xs[..|xs| - 1])
  }

  lemma ReverseReverse<T>(xs: seq<T>)
    ensures Reverse(Reverse(xs)) == xs
  {
  }

  /** `notifications.slice(-4).reverse()`: the last four (or all, when fewer), newest first. */
  function DropdownWindow<T>(notifications: seq<T>): (shown: seq<T>)
    ensures |shown| == if |notifications| < DropdownSize then |notifications| else DropdownSize
    ensures forall i :: 0 <= i < |shown| ==> shown[i] == notifications[|notifications| - 1 - i]
  {
    var start := if |notifications| < DropdownSize then 0 else |notifications| - DropdownSize;
    Reverse(notifications[start..])
  }

  /** A newly added notification is shown first and pushes the oldest shown one out. */
  lemma {:induction false} NewestShownFirst<T>(notifications: seq<T>, latest: T)
    ensures DropdownWindow(notifications + [latest])[0] == latest
    ensures DropdownWindow(notifications + [latest])[1..] ==
      DropdownWindow(notifications)[..|DropdownWindow(notifications + [latest])| - 1]
  {
    var before, after := DropdownWindow(notifications), DropdownWindow(notifications + [latest]);
    assert forall i :: 1 <= i < |after| ==> after[i] == before[i - 1];
  }

  /** The texts of the dropdown: "No notifications" for an empty list, otherwise the
      messages of the window. */
  function DropdownTexts(notifications: seq<Notifications.Notification>): (texts: seq<string>)
    ensures notifications == [] ==> texts == [NoNotificationsText]
    ensures notifications != [] ==> |texts| == |DropdownWindow(notifications)|
    ensures notifications != [] ==>
      forall i :: 0 <= i < |texts| ==> texts[i] == notifications[|notifications| - 1 - i].message
  {
    if notifications == [] then [NoNotificationsText]
    else
      var shown := DropdownWindow(notifications);
      seq(|shown|, i requires 0 <= i < |shown| => shown[i].message)
  }

  // ---------------------------------------------------------------------------
  // Buttons

  /** The header's buttons, left to right. */
  function HeaderButtons(userID: Option<string>): (buttons: seq<string>)
    ensures "Refund" in buttons
    ensures "Login" in buttons <==> !Notifications.IsSignedIn(userID)
    ensures "Notifications" in buttons <==> Notifications.IsSignedIn(userID)
    ensures "Profile" in buttons <==> Notifications.IsSignedIn(userID)
    ensures "Logout" in buttons <==> Notifications.IsSignedIn(userID)
  {
    if Notifications.IsSignedIn(userID) then ["Notifications", "Refund", "Profile", "Logout"]
    else ["Refund", "Login"]
  }

  class AppBar {
    var searchQuery: string
    var showNotifications: bool
    /** Every call to `navigate`, in order. */
    var navigations: seq<Navigation>

    constructor ()
      ensures searchQuery == "" && !showNotifications && navigations == []
    {
      searchQuery := "";
      showNotifications := false;
      navigations := [];
    }

    method HandleSearchInput(value: string)
      modifies this
      ensures searchQuery == value
      ensures showNotifications == old(showNotifications) && navigations == old(navigations)
    {
      searchQuery := value;
    }

    /** `handleSearchSubmit`. */
    method HandleSearchSubmit()
      modifies this
      ensures navigations == old(navigations) + SearchNavigations(searchQuery)
      ensures searchQuery == old(searchQuery) && showNotifications == old(showNotifications)
    {
      var trimmed := Trim(searchQuery);
      if trimmed != "" {
        navigations := navigations + [Navigation(SearchPathPrefix + EncodeUriComponent(trimmed), None)];
      }
    }

    /** The bell button flips the dropdown. */
    method ToggleNotifications()
      modifies this
      ensures showNotifications == !old(showNotifications)
      ensures searchQuery == old(searchQuery) && navigations == old(navigations)
    {
      showNotifications := !showNotifications;
    }

    /** A click outside the dropdown or Escape closes it. */
    method CloseNotifications()
      modifies this
      ensures !showNotifications
      ensures searchQuery == old(searchQuery) && navigations == old(navigations)
    {
      showNotifications := false;
    }

    /** `handleLogout`: clear the session, then go to the home page. */
    method HandleLogout(auth: Auth.AuthProvider)
      modifies this, auth
      ensures auth.userID == None
      ensures navigations == old(navigations) + [Navigation("/", None)]
      ensures searchQuery == old(searchQuery) && showNotifications == old(showNotifications)
    {
      auth.Logout();
      navigations := navigations + [Navigation("/", None)];
    }
  }
}
