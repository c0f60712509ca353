/**
 * The per-session state of the application (app.py 18-27, 114-148, 216-227,
 * 367-372): which page is shown, whether the user has entered the app, and
 * the prediction history.
 *
 * The regression model's `predict` is a parameter: a function from the
 * feature row to a price or an error.
 */
module AppSession {
  import opened Text
  import opened Features

  datatype Page = Welcome | App

  /** What the top-level dispatch renders. */
  datatype Screen = WelcomeScreen | MainTabs | Nothing

  /** A price estimate, or the message of the exception `predict` raised. */
  datatype PredictOutcome = Predicted(price: int) | PredictFailed(message: string)

  /** What the user is shown after pressing "Predict Price". */
  datatype Notice = PriceNotice(place: string, price: int) | ErrorNotice(message: string)

  /** A row of the history table. */
  datatype HistoryEntry = HistoryEntry(
    location: string, area: int, bedrooms: int, bathrooms: int, stories: int, parking: int,
    price: int)

  /** The page dispatch: the welcome page, else the tabs when logged in, else nothing. */
  function ScreenFor(page: Page, loggedIn: bool): (screen: Screen)
    ensures screen.Nothing? <==> page.App? && !loggedIn
    ensures screen.WelcomeScreen? <==> page.Welcome?
  {
    if page == Welcome then WelcomeScreen else if loggedIn then MainTabs else Nothing
  }

  /** The history record of a successful prediction: an empty location is stored as "Unknown". */
  function HistoryRecord(h: House, location: string, price: int): (e: HistoryEntry)
    ensures e.location == if location == [] then "Unknown" else location
    ensures e.area == h.area && e.bedrooms == h.bedrooms && e.bathrooms == h.bathrooms
    ensures e.stories == h.stories && e.parking == h.parking && e.price == price
  {
    HistoryEntry(OrElse(location, "Unknown"), h.area, h.bedrooms, h.bathrooms, h.stories,
                 h.parking, price)
  }

  /** The message shown for an outcome; an empty location reads "your city". */
  function NoticeFor(location: string, outcome: PredictOutcome): (n: Notice)
    ensures outcome.Predicted? <==> n.PriceNotice?
    ensures outcome.Predicted? ==>
      n.price == outcome.price && n.place == if location == [] then "your city" else location
    ensures outcome.PredictFailed? ==> n.message == outcome.message
  {
    match outcome
    case Predicted(price) => PriceNotice(OrElse(location, "your city"), price)
    case PredictFailed(message) => ErrorNotice(message)
  }

  class Session {
    var loggedIn: bool
    var page: Page
    var history: seq<HistoryEntry>

    /** The states the buttons can reach: logged in exactly on the app page. */
    predicate Valid()
      reads this
    {
      loggedIn <==> page == App
    }

    /** The session-state defaults. */
    constructor ()
      ensures Valid()
      ensures !loggedIn && page == Welcome && history == []
    {
      loggedIn := false;
      page := Welcome;
      history := [];
    }

    /** The "Get Started" button. */
    method GetStarted()
      modifies this
      ensures Valid()
      ensures loggedIn && page == App && history == old(history)
    {
      loggedIn := true;
      page := App;
    }

    /** The "Confirm Logout" button; the history of the session is kept. */
    method ConfirmLogout()
      modifies this
      ensures Valid()
      ensures !loggedIn && page == Welcome && history == old(history)
    {
      loggedIn := false;
      page := Welcome;
    }

    /**
     * The "Predict Price" button: build the feature row, ask the model, and
     * append to the history only when it returns a price.
     */
    method Predict(h: House, location: string, schema: Schema, predict: Row -> PredictOutcome)
      returns (notice: Notice)
      requires Valid()
      modifies this
      ensures Valid()
      ensures loggedIn == old(loggedIn) && page == old(page)
      ensures notice == NoticeFor(location, predict(FeatureRow(h, schema)))
      ensures predict(FeatureRow(h, schema)).Predicted? ==>
        history == old(history) + [HistoryRecord(h, location, predict(FeatureRow(h, schema)).price)]
      ensures predict(FeatureRow(h, schema)).PredictFailed? ==> history == old(history)
    {
      var x := BuildFeatures(h, schema);
      var outcome := predict(x);
      notice := NoticeFor(location, outcome);
      if outcome.Predicted? {
        history := history + [HistoryRecord(h, location, outcome.price)];
      }
    }
  }

  /** Every state the buttons reach renders a page: the dispatch never falls through. */
  lemma ValidStateRendersPage(s: Session)
    requires s.Valid()
    ensures ScreenFor(s.page, s.loggedIn) == if s.loggedIn then MainTabs else WelcomeScreen
  {
  }
}
