# AcmePlex front end — verified model of its client-side rules

AcmePlex is a movie-theatre ticket reservation web front end written in React. Its pages hold
small, sequential rules: the seat map and its selection list, the refund request form with
its 72-hour rule and 15% admin fee, two checkout pages with tax and credit-point redemption,
the provider that posts and loads a user's notifications, the title search, the profile
editor, the login session, the register and login forms, and the header bar.

This project models those rules in Dafny, one module per source file:

| module | file | form |
|---|---|---|
| `SeatBooking` | `seat_booking.dfy` | label and toggle rules as functions; class `SeatBookingPage` holds the selection |
| `ProcessRefund` | `process_refund.dfy` | lookup, eligibility and fee as functions; class `RefundPage` holds the form |
| `Checkout` | `checkout.dfy` | pricing and card-form rules that both payment pages use |
| `MakePayment`, `ProcessPayment` | `make_payment.dfy`, `process_payment.dfy` | each page's constants and a page class |
| `Notifications` | `notifications.dfy` | message selection as functions; class `NotificationsProvider` runs the posting loop |
| `Search` | `search.dfy` | the title filter and the showtime links |
| `Profile`, `Auth`, `Register`, `Login` | `profile.dfy`, `auth.dfy`, `register.dfy`, `login.dfy` | a page or context class over its state fields |
| `App` | `app.dfy` | the header's search guard, dropdown window and buttons; class `AppBar` |
| `Strings`, `Wrappers` | `strings.dfy`, `wrappers.dfy` | ASCII lower-casing, `includes`, `join`, decimal digits, `trim`, `encodeURIComponent`; `Option` |

Each page that keeps React state becomes a class. Its fields are the state variables, and
its methods are the event handlers. Each method's `ensures` gives the new state as a pure
function of the old one. The properties are proved as lemmas about those functions.

Inputs the pages get from the outside world become parameters:
- the current time and today's midnight, as integer milliseconds since the epoch;
- the movie list and the user profile that the notification provider fetches, as their
  outcomes (a value or a failure);
- the navigation state the search page receives.

Money is `real`. The `navigate` calls are recorded in fields (`navigations`, `redirect`) and
not performed. So are the `alert` calls of the seat map, the profile, register and login
pages (`alerts`); the refund and payment pages' success alerts are not (see "Left out").

No page calls `login` from `src/context/AuthContext.js`: the login page only validates its
form and shows an alert. So in the code as written, nobody is ever signed in. The header
then never shows the bell, Profile or Logout, and the notification provider never runs. The
model keeps that behaviour: `Login.LoginPage` does not touch `Auth.AuthProvider`.

## Model

| member | source | states |
|---|---|---|
| `SeatBooking.SeatLabel` | src/pages/SeatBooking.js:17 | the label of (row, col) is the row letter followed by col + 1 in decimal; parsing it gives back exactly (row, col) |
| `SeatBooking.SeatLabelInjective` | src/pages/SeatBooking.js:5-6 | two grid positions share a label only if they are the same position |
| `SeatBooking.GridLabelsDistinct` | src/pages/SeatBooking.js:95-98 | the 6 × 8 = 48 labels the grid renders are pairwise different |
| `SeatBooking.UnavailableSeatsOnGrid` | src/pages/SeatBooking.js:9 | the five unavailable seats are different seats of the grid |
| `SeatBooking.Without` | src/pages/SeatBooking.js:20 | filtering keeps exactly the entries different from the seat |
| `SeatBooking.Toggle` | src/pages/SeatBooking.js:18-20 | an unavailable seat leaves the selection unchanged; a selected seat is removed; any other seat is appended at the end; membership of every other seat is unchanged |
| `SeatBooking.ToggleRemovesInOrder` | src/pages/SeatBooking.js:19-20 | toggling the selected seat at index k gives the selection without entry k, the others in their original order |
| `SeatBooking.ToggleTwice` | src/pages/SeatBooking.js:20 | toggling an available, unselected seat twice restores the selection |
| `SeatBooking.ToggleKeepsValid` | src/pages/SeatBooking.js:16-20 | toggling a grid seat keeps the selection free of duplicates and of unavailable seats, and within the grid |
| `SeatBooking.SelectionBound` | src/pages/SeatBooking.js:5-9 | such a selection holds at most 48 − 5 = 43 seats |
| `SeatBooking.Summary` | src/pages/SeatBooking.js:144 | the empty selection reads "None"; otherwise the labels joined with ", " |
| `SeatBooking.SummaryNoneIffEmpty` | src/pages/SeatBooking.js:144 | for a reachable selection the summary is "None" exactly when nothing is selected |
| `SeatBooking.SummaryAppend` | src/pages/SeatBooking.js:144 | selecting one more seat extends the summary by ", " and its label |
| `SeatBooking.GridLabels` | src/pages/SeatBooking.js:79-98 | the 48 labels in rendering order: row by row, the seat at (row, col) at position row × 8 + col |
| `SeatBooking.BookingAlert` | src/pages/SeatBooking.js:153 | "Booked seats: " followed by the selected labels joined with ", "; just the prefix when nothing is selected |
| `SeatBooking.BookingAlertMatchesSummary` | src/pages/SeatBooking.js:144-153 | for a reachable selection the alert lists the seats exactly as the summary does, except that an empty selection gives the bare prefix where the summary reads "None" |
| `SeatBooking.SeatBookingPage.constructor` | src/pages/SeatBooking.js:14 | the selection starts empty, no alert shown |
| `SeatBooking.SeatBookingPage.ToggleSeat` | src/pages/SeatBooking.js:16-22 | the selection becomes `Toggle` of the old one for that seat's label; it stays valid and has at most 43 seats; no alert |
| `SeatBooking.SeatBookingPage.ConfirmBooking` | src/pages/SeatBooking.js:150-153 | the booking alert for the current selection is shown; the selection is unchanged |
| `ProcessRefund.FindTicket` | src/pages/ProcessRefund.js:64 | no result exactly when no ticket has the ID; otherwise the first ticket with it |
| `ProcessRefund.Lookup` | src/pages/ProcessRefund.js:63-76 | three outcomes: no ticket has the ID; the first match is "Cancelled"; or the first match, not cancelled, is selected |
| `ProcessRefund.MockLookups` | src/pages/ProcessRefund.js:28-56 | on the page's tickets "002" is already cancelled, "001" and "003" are selected, "004" is invalid |
| `ProcessRefund.IsRefundEligible` | src/pages/ProcessRefund.js:100-105 | eligible exactly when the showtime is at least 72 hours (in milliseconds) after now |
| `ProcessRefund.EligibilityBoundary` | src/pages/ProcessRefund.js:104 | exactly 72 hours ahead is eligible; one millisecond less is not |
| `ProcessRefund.AdminFee` | src/pages/ProcessRefund.js:91 | the fee lies between 0 and the price; it is 0 exactly for registered buyers or free tickets |
| `ProcessRefund.RefundAmount` | src/pages/ProcessRefund.js:91-92 | 0 ≤ refund ≤ price; the refund equals the price exactly for registered buyers or free tickets; a guest gets 85% of the price |
| `ProcessRefund.GuestRefundExamples` | src/pages/ProcessRefund.js:91-92 | a guest's $20 ticket refunds $17; the page's $19 guest ticket has a $2.85 fee and refunds $16.15 |
| `ProcessRefund.Display` | src/pages/ProcessRefund.js:163-172 | the box shows the ticket's price; the admin-fee line appears exactly for guests; the fee shown and the refund shown add up to the price |
| `ProcessRefund.DisplayMatchesProcessed` | src/pages/ProcessRefund.js:163-172 | the details box shows the same refund that submitting processes; the admin-fee line appears exactly for guests and shows the processed fee |
| `ProcessRefund.Submit` | src/pages/ProcessRefund.js:80-97 | a rejection carries "Please fill in all fields" or the 72-hour error; a processed refund needs a selected ticket and is that ticket's refund amount |
| `ProcessRefund.MissingFieldsCheckedFirst` | src/pages/ProcessRefund.js:82-85 | an empty ticket ID, empty reason or missing selection is rejected with "Please fill in all fields", whatever the time |
| `ProcessRefund.ProcessedIffEligible` | src/pages/ProcessRefund.js:80-97 | a refund is processed exactly when all fields are filled and the showtime is at least 72 hours away; the amount is then between 0 and the price |
| `ProcessRefund.TooLateRejected` | src/pages/ProcessRefund.js:86-89 | a filled form under 72 hours before the showtime is rejected with the 72-hour error |
| `ProcessRefund.RefundPage.constructor` | src/pages/ProcessRefund.js:20-25 | empty form, no error, no selected ticket |
| `ProcessRefund.RefundPage.HandleTicketIDChange` | src/pages/ProcessRefund.js:59-77 | records the ID; no match clears the selection and sets "Invalid Ticket ID"; a cancelled match clears it and sets the cancelled error; otherwise selects the ticket and clears the error |
| `ProcessRefund.RefundPage.HandleReasonChange` | src/pages/ProcessRefund.js:142-143 | only the reason changes |
| `ProcessRefund.RefundPage.HandleSubmit` | src/pages/ProcessRefund.js:80-97 | the outcome is `Submit` of the form and selection; a rejection sets its error; a refund clears the error and redirects to "/payments"; the form is unchanged |
| `Checkout.Subtotal` | src/pages/MakePayment.js:40 | non-negative for a non-negative price, 0 for no tickets |
| `Checkout.Tax` | src/pages/MakePayment.js:41 | the tax lies between 0 and the subtotal |
| `Checkout.PointsValue` | src/pages/MakePayment.js:42 | a non-negative number of points is worth a non-negative amount |
| `Checkout.Total` | src/pages/MakePayment.js:43 | the total is never negative; it is 0 or subtotal + tax − points value; it never exceeds subtotal + tax when the points are non-negative |
| `Checkout.Ceil` | src/pages/MakePayment.js:50 | `Math.ceil`: the least integer not below its argument |
| `Checkout.RedeemPoints` | src/pages/MakePayment.js:50 | any option but "Yes" redeems 0; redeemed points lie between 0 and the balance; with "Yes" they are the whole balance or enough to cover the amount, and fewer than the balance only when one point less would not cover it (the least covering number) |
| `Checkout.RedeemingYes` | src/pages/ProcessPayment.js:35-43 | with "Yes" the total drops to 0 when the balance covers the amount, otherwise by the balance's dollar value |
| `Checkout.WithField` | src/pages/MakePayment.js:141-182 | an input changes its own field and no other |
| `Checkout.SubmitError` | src/pages/MakePayment.js:70-79 | the error is "Please fill in all fields" or empty |
| `Checkout.SubmitErrorIff` | src/pages/MakePayment.js:70-75 | the error is set exactly when a field other than the owner is empty |
| `Checkout.OwnerNotChecked` | src/pages/ProcessPayment.js:48-53 | changing the owner never changes the submit outcome |
| `MakePayment.FindMethod` | src/pages/MakePayment.js:54 | no result exactly when no saved method has the id; otherwise a saved method with that id |
| `MakePayment.CardOf` | src/pages/MakePayment.js:59-63 | the card carries the method's type, owner, number, expiry and cvv |
| `MakePayment.SelectSavedMethod` | src/pages/MakePayment.js:53-66 | a known id records the id, copies that method's card and keeps the credit-point choice; an unknown id leaves the form unchanged |
| `MakePayment.SavedCardPassesSubmit` | src/pages/MakePayment.js:17-19 | choosing either saved card makes the form pass the submit check |
| `MakePayment.SelectorShownIffRedeemable` | src/pages/MakePayment.js:123 | the credit-point selector (shown for a positive balance) is hidden exactly when no option could redeem points: hidden, nothing is redeemed; shown, "Yes" redeems some points towards any positive amount |
| `MakePayment.ZeroBalanceTotal` | src/pages/MakePayment.js:32-43 | with the 0-point balance the selector is hidden, nothing is redeemed and the total is subtotal + tax = $60.165 |
| `MakePayment.MakePaymentPage.TotalAmount` | src/pages/MakePayment.js:38-43 | the total shown equals subtotal + tax |
| `MakePayment.MakePaymentPage.constructor` | src/pages/MakePayment.js:22-34 | the initial form, no points redeemed, no error |
| `MakePayment.MakePaymentPage.HandleCreditPointSelection` | src/pages/MakePayment.js:45-51 | only `useCreditPoints` changes in the form; the redeemed points become `RedeemPoints` of the option |
| `MakePayment.MakePaymentPage.HandlePaymentMethodSelection` | src/pages/MakePayment.js:53-66 | the form becomes `SelectSavedMethod` of the old form |
| `MakePayment.MakePaymentPage.HandleCardInput` | src/pages/MakePayment.js:141-182 | one card field changes |
| `MakePayment.MakePaymentPage.HandleSubmit` | src/pages/MakePayment.js:68-82 | the error becomes `SubmitError` of the card; the total is charged exactly when it is empty |
| `ProcessPayment.RedeemsWholeBalance` | src/pages/ProcessPayment.js:25-43 | $60.165 is due; "Yes" redeems all 300 points and the total becomes $57.165; any other option redeems 0 |
| `ProcessPayment.ProcessPaymentPage.TotalAmount` | src/pages/ProcessPayment.js:31-36 | 0 ≤ total ≤ subtotal + tax, and the total is subtotal + tax minus the points' value |
| `ProcessPayment.ProcessPaymentPage.constructor` | src/pages/ProcessPayment.js:16-27 | the initial form, no points redeemed, no error |
| `ProcessPayment.ProcessPaymentPage.HandleCreditPointSelection` | src/pages/ProcessPayment.js:38-44 | only `useCreditPoints` changes in the form; "Yes" redeems 300 points, anything else 0 |
| `ProcessPayment.ProcessPaymentPage.HandleCardInput` | src/pages/ProcessPayment.js:99-141 | one card field changes |
| `ProcessPayment.ProcessPaymentPage.HandleSubmit` | src/pages/ProcessPayment.js:46-60 | the error becomes `SubmitError` of the card; the total is charged exactly when it is empty |
| `Notifications.FutureMovies` | src/context/NotificationsContext.js:45-48 | a movie is kept exactly when its release date is strictly after today's midnight |
| `Notifications.FutureMoviesAppend` | src/context/NotificationsContext.js:45-48 | filtering a list in two parts is filtering each part, in order: the kept movies keep their list order and multiplicity |
| `Notifications.FutureMoviesSingle` | src/context/NotificationsContext.js:45-48 | one movie is kept exactly when it is released after today's midnight |
| `Notifications.Announcement` | src/context/NotificationsContext.js:63 | the title, then " is coming out on ", then the release date |
| `Notifications.AnnouncementsToPost` | src/context/NotificationsContext.js:62-77 | no posted message is in the history, and each announces one of the movies |
| `Notifications.AnnouncementsToPostAppend` | src/context/NotificationsContext.js:62-77 | announcing a list in two parts is announcing each part in turn, against the same history |
| `Notifications.AnnouncementsToPostSingle` | src/context/NotificationsContext.js:62-77 | one movie is announced exactly when its announcement is not in the history |
| `Notifications.AnnouncementsToPostComplete` | src/context/NotificationsContext.js:62-77 | every movie of the list whose announcement is not in the history is announced |
| `Notifications.PlannedMessages` | src/context/NotificationsContext.js:57-93 | at most one message per movie plus the membership message |
| `Notifications.PlannedMessagesComplete` | src/context/NotificationsContext.js:57-77 | every future movie whose announcement is not in the history is announced |
| `Notifications.PlannedMessagesInMovieOrder` | src/context/NotificationsContext.js:57-93 | the messages for a list in two parts are the first part's announcements, then the second part's, then the membership message when the history lacks it |
| `Notifications.AnnouncementIsNotMembership` | src/context/NotificationsContext.js:80 | no announcement reads as the membership message |
| `Notifications.PlannedMessagesFresh` | src/context/NotificationsContext.js:57-93 | a message already in the history is never posted; each posted message announces a future movie or is the membership message |
| `Notifications.MembershipPostedOnceAndLast` | src/context/NotificationsContext.js:79-93 | the membership message is posted exactly when the history lacks it, at most once, and after all announcements |
| `Notifications.DuplicateAnnouncementsBothPosted` | src/context/NotificationsContext.js:57-76 | two identical future movies are both announced, because the history list is not updated in the loop |
| `Notifications.NumberHistory` | src/context/NotificationsContext.js:17-20 | entry i gets id i and the i-th message |
| `Notifications.NumberHistoryKeepsMessages` | src/context/NotificationsContext.js:17-20 | numbering keeps every message in history order, with pairwise different ids |
| `Notifications.FetchedNotifications` | src/context/NotificationsContext.js:12-27 | a failed fetch or a missing history gives no notifications; otherwise exactly the history's messages |
| `Notifications.PostsFor` | src/context/NotificationsContext.js:66-75 | one POST per message, in order, for the user |
| `Notifications.NotificationsProvider.constructor` | src/context/NotificationsContext.js:6 | no notifications, nothing posted |
| `Notifications.NotificationsProvider.FetchNotifications` | src/context/NotificationsContext.js:8-30 | a signed-in user's notifications become `FetchedNotifications` of the response; a signed-out one changes nothing |
| `Notifications.NotificationsProvider.InitializeNotifications` | src/context/NotificationsContext.js:33-101 | signed out: nothing posted or loaded; signed in with movies and a history: exactly the planned messages are posted, in order; a failed fetch or missing history posts nothing; the history is then loaded |
| `Search.QueryOf` | src/pages/Search.js:9 | a missing query reads as "", a present one as itself |
| `Search.Filter` | src/pages/Search.js:42-44 | a movie is in the results exactly when it is on the page and its lower-cased title includes the lower-cased query |
| `Search.FilterPreservesOrder` | src/pages/Search.js:42-44 | the results are a subsequence of the page's movies, in their order |
| `Search.EmptyQueryKeepsAll` | src/pages/Search.js:42-44 | the empty query keeps every movie |
| `Search.MissingQueryListsAll` | src/pages/Search.js:9-44 | arriving without a query lists all three movies |
| `Search.ResultLinks` | src/pages/Search.js:52-67 | each showtime link has theatre 0, the movie's position in the results and that showtime |
| `Search.LinkIndexIsPosition` | src/pages/Search.js:67 | searching "Cars" yields only Cars, whose links carry movie index 0 although its id is 3 |
| `Search.LinkPath` | src/pages/Search.js:67 | the path starts with "/seat-booking/" and ends with the showtime as it is |
| `Search.LinkPathInjective` | src/pages/Search.js:67 | different links give different paths |
| `Strings.ToLower` | src/pages/Search.js:43 | each character is lowered; no upper-case letter remains |
| `Strings.ToLowerIdempotent` | src/pages/Search.js:43 | lowering twice is lowering once |
| `Strings.Includes` | src/pages/Search.js:43 | true exactly when the needle occurs at some index of the text |
| `Strings.Join` | src/pages/SeatBooking.js:144 | the first part starts the joined text |
| `Strings.JoinSnoc` | src/pages/SeatBooking.js:144 | joining one more part appends the separator and that part |
| `Strings.NatToDecimal` | src/pages/SeatBooking.js:17 | non-empty, all digits, one digit exactly below 10 |
| `Strings.DecimalRoundTrip` | src/pages/SeatBooking.js:17 | reading the decimal text back gives the number |
| `Strings.NatToDecimalInjective` | src/pages/SeatBooking.js:17 | different numbers have different decimal texts |
| `Strings.Trim` | src/pages/App.js:62 | a contiguous piece of the input with only white space cut off before and after it; empty exactly when every character is white space; otherwise it starts and ends with a non-white-space character |
| `Strings.TrimmedPiece` | src/pages/App.js:62 | cutting the leading white space and then the trailing white space leaves a slice of the input followed only by white space |
| `Strings.Prefixed` | src/pages/Register.js:31 | a fixed prefix followed by exactly the given text |
| `Strings.PrefixedInjective` | src/pages/Login.js:28 | behind the same prefix, different emails give different messages |
| `Strings.EncodeUriComponent` | src/pages/App.js:63 | the result holds only unreserved characters and '%'; text of unreserved characters is unchanged |
| `Profile.WithField` | src/pages/Profile.js:70-91 | an input changes its own field only, never the membership fee or credit points |
| `Profile.EditsKeepFeeAndPoints` | src/pages/Profile.js:66-98 | no series of edits changes the membership fee or credit points |
| `Profile.RestoringFieldRestoresForm` | src/pages/Profile.js:70-91 | setting an edited field back to its old value restores the form |
| `Profile.ProfilePage.constructor` | src/pages/Profile.js:16-25 | the initial user, edit mode off, the form equal to the user |
| `Profile.ProfilePage.HandleEdit` | src/pages/Profile.js:29-31 | edit mode turns on; nothing else changes |
| `Profile.ProfilePage.HandleInput` | src/pages/Profile.js:70-91 | one form field changes; the user does not |
| `Profile.ProfilePage.HandleCancel` | src/pages/Profile.js:33-36 | edit mode turns off and the form is reset to the unchanged user |
| `Profile.ProfilePage.HandleSave` | src/pages/Profile.js:38-42 | the form becomes the user, edit mode turns off, "Profile updated!" is alerted; the fee and points never change |
| `Auth.AuthProvider.constructor` | src/context/AuthContext.js:6 | nobody is logged in |
| `Auth.AuthProvider.Login` | src/context/AuthContext.js:8-10 | the id replaces any previous one |
| `Auth.AuthProvider.Logout` | src/context/AuthContext.js:12-14 | the session is cleared whatever it held, so logout is idempotent and login then logout returns to the start |
| `Register.WithField` | src/pages/Register.js:50-79 | an input changes its own field and no other |
| `Register.SubmitError` | src/pages/Register.js:26-30 | no error exactly when the name, email and password are all non-empty; otherwise the required-fields error |
| `Register.SubmitErrorIff` | src/pages/Register.js:26 | the error is set exactly when a field other than the address is empty |
| `Register.AddressNotChecked` | src/pages/Register.js:26 | the address never changes the submit outcome |
| `Register.RegisterPage.constructor` | src/pages/Register.js:15-22 | an empty form and no error |
| `Register.RegisterPage.HandleInput` | src/pages/Register.js:50-79 | one form field changes |
| `Register.RegisterPage.HandleSubmit` | src/pages/Register.js:24-33 | the error becomes `SubmitError` of the form; the success alert with the email follows exactly when it is empty |
| `Login.SubmitError` | src/pages/Login.js:23-27 | no error exactly when both email and password are non-empty; otherwise "Please fill in all fields" |
| `Login.LoginPage.constructor` | src/pages/Login.js:17-19 | empty email, password and error |
| `Login.LoginPage.HandleEmailChange` | src/pages/Login.js:52 | only the email changes |
| `Login.LoginPage.HandlePasswordChange` | src/pages/Login.js:61 | only the password changes |
| `Login.LoginPage.HandleSubmit` | src/pages/Login.js:21-29 | reads only email and password; only the error (and on success an alert) changes |
| `App.SearchNavigations` | src/pages/App.js:60-65 | no navigation exactly when the query is blank; otherwise one, to "/search?query=" and the encoded trimmed query |
| `App.HeaderSearchArrivesEmpty` | src/pages/App.js:63 | a header search reaches the search page with the query "" and lists every movie |
| `App.IntendedSearchNavigations` | src/pages/App.js:63 | the same navigation to the same path, carrying the trimmed query in the navigation state as well |
| `App.IntendedSearchFiltersByQuery` | src/pages/Search.js:9 | with that navigation the search page filters by exactly the trimmed query |
| `App.Reverse` | src/pages/App.js:154 | entry i of the result is entry n − 1 − i of the input |
| `App.ReverseReverse` | src/pages/App.js:154 | reversing twice gives the input back |
| `App.DropdownWindow` | src/pages/App.js:152-154 | the last four notifications (all, when fewer), newest first |
| `App.NewestShownFirst` | src/pages/App.js:152-154 | a new notification is shown first and the others move down one place |
| `App.DropdownTexts` | src/pages/App.js:151-168 | an empty list shows "No notifications"; otherwise the window's messages, newest first |
| `App.HeaderButtons` | src/pages/App.js:195-250 | Refund always; bell, Profile and Logout exactly when signed in; Login exactly when not |
| `App.AppBar.constructor` | src/pages/App.js:51-53 | empty query, dropdown closed, no navigation |
| `App.AppBar.HandleSearchInput` | src/pages/App.js:101 | only the query changes |
| `App.AppBar.HandleSearchSubmit` | src/pages/App.js:60-65 | the navigations grow by `SearchNavigations` of the query |
| `App.AppBar.ToggleNotifications` | src/pages/App.js:127 | the dropdown flips |
| `App.AppBar.CloseNotifications` | src/pages/App.js:144-145 | the dropdown closes |
| `App.AppBar.HandleLogout` | src/pages/App.js:67-70 | the session is cleared, then one navigation to "/" |

## Left out

- HTTP requests, JSON parsing and `console.error` in `src/context/NotificationsContext.js`: their outcomes are parameters. A POST that fails partway through the loop is not modelled; every POST is taken to succeed.
- JavaScript `Date` parsing, time zones and the local clock: the caller supplies times as milliseconds. A release date that is not a date is a movie whose release time is absent; it never counts as future.
- IEEE double arithmetic and `toFixed(2)`: money is exact `real`. For example, the model's $60.165 total would be displayed rounded.
- Strings.ToLower: lowers only 'A'–'Z'; JavaScript's `toLowerCase` also lowers other scripts, which the model does not.
- Strings.EncodeUriComponent: Dafny's `char` is a Unicode scalar value, so the model's strings cannot hold the lone surrogate halves on which JavaScript's `encodeURIComponent` throws; that error path is not modelled.
- Rendering, styling, hover state (`hoveredButton`), the route table, and the buttons that only call `navigate` with a fixed path (Refund, Profile, Login, Go Back, Home).
- Grommet's own `required` form-field validation, which runs before the submit handlers: only the handlers' checks are modelled.
- `Notifications.InitializeNotifications`: the movie list and profile outcomes are fixed when the method starts, so a fetch that fails midway is modelled as failing before anything is posted.
- `ProcessRefund.RefundPage.HandleSubmit` and the payment pages' `HandleSubmit`: the success alert's text is not modelled, only the amount.
- `src/pages/SeatBooking.js` reads the theatre, movie and showtime from the navigation state only for display; that is not modelled.
- `src/App.js`, `src/components/*`, and the pages Landing, Tickets, Payments, Successful and 404 only render static data and are not part of this model.

## Findings

| source | as written | input that shows it | evidently intended | confidence | as-written member | corrected member |
|---|---|---|---|---|---|---|
| src/pages/App.js:63 | the header search puts the trimmed query only in the URL (`/search?query=…`), while `src/pages/Search.js:9` reads the query only from the navigation state | typing "cars" in the header and submitting: the search page reads "" and lists all three movies | the search page filters by the typed query | not executed | `App.HeaderSearchArrivesEmpty` | `App.IntendedSearchFiltersByQuery` |

`App.AppBar.HandleSearchSubmit` models the navigation as written. `App.IntendedSearchNavigations`
also carries the query in the navigation state. With it, `App.IntendedSearchFiltersByQuery`
proves that the search page filters by exactly the trimmed query.
