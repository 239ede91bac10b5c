/**
 * The creation panel and its submission flow: the `isSendingWebsite` flag,
 * the busy markers on the panel's controls, the submit, close and open
 * handlers, `clearCreationArea`, `websiteCreationSuccess` and
 * `websiteCreationFail`.
 *
 * Requests and toasts are not performed: each handler appends what it would
 * cause to an effect log, and the way the creation request settles is an
 * `Outcome` given to `Settle`.
 */
module Submission {
  import opened UrlPattern
  import Listing

  /** What a handler causes outside the panel's own state. */
  datatype Effect =
    | Post(url: string, category: string)  // POST to CreateUrl with the JSON body { url, category }
    | Get(url: string)                     // GET of a list or of the categories
    | FailureToast                         // the red "Algo ha ido mal en tu petición" toast

  /** How the creation request settles. */
  datatype Outcome =
    | Rejected                               // `fetch` rejected: a network error
    | Responded(status: int, jsonBody: bool) // a response; whether its body parses as JSON

  const CreateUrl := Listing.ServerUrl + "/website/create"

  // ---------------------------------------------------------------------------
  // Category normalisation
  // ---------------------------------------------------------------------------

  predicate IsLowerAscii(c: char) {
    'a' <= c <= 'z'
  }

  /** `toUpperCase` on one character, for ASCII: a lower-case letter becomes its capital. */
  function UpperAscii(c: char): char {
    if IsLowerAscii(c) then (c as int - 32) as char else c
  }

  /**
   * The category sent with a submission: "Todas" when the field is empty,
   * otherwise the field with its first character upper-cased.
   */
  function NormalizeCategory(input: string): (category: string)
    ensures input == "" ==> category == Listing.AllCategory
    ensures |category| > 0 && !IsLowerAscii(category[0])
    ensures input != "" ==> |category| == |input| && category[1..] == input[1..]
    ensures input != "" && IsLowerAscii(input[0]) ==> category[0] as int == input[0] as int - 32
    ensures input != "" && !IsLowerAscii(input[0]) ==> category == input
  {
    if input == "" then Listing.AllCategory else [UpperAscii(input[0])] + input[1..]
  }

  /** Normalising twice is normalising once: a sent category is already in normal form. */
  lemma NormalizeIdempotent(input: string)
    ensures NormalizeCategory(NormalizeCategory(input)) == NormalizeCategory(input)
  {
  }

  lemma NormalizeExamples()
    ensures NormalizeCategory("blog") == "Blog"
    ensures NormalizeCategory("Blog") == "Blog"
    ensures NormalizeCategory("") == "Todas"
  {
  }

  // ---------------------------------------------------------------------------
  // The status check: `req.status.toString() !== "201"`
  // ---------------------------------------------------------------------------

  predicate AllDigits(s: string) {
    forall k :: 0 <= k < |s| ==> '0' <= s[k] <= '9'
  }

  function DigitChar(d: nat): (c: char)
    requires d < 10
    ensures '0' <= c <= '9' && c as int - '0' as int == d
  {
    ('0' as int + d) as char
  }

  /** `toString` of a non-negative integer: its decimal digits, without leading zeros. */
  function Decimal(n: nat): (s: string)
    ensures |s| > 0 && AllDigits(s)
    ensures n == 0 ==> s == "0"
    ensures n > 0 ==> s[0] != '0'
    decreases n
  {
    if n < 10 then [DigitChar(n)] else Decimal(n / 10) + [DigitChar(n % 10)]
  }

  /** The number a string of decimal digits denotes. */
  function DecimalValue(s: string): nat
    requires AllDigits(s)
  {
    if s == [] then 0 else 10 * DecimalValue(s[..|s| - 1]) + (s[|s| - 1] as int - '0' as int)
  }

  lemma {:induction false} DecimalRoundTrip(n: nat)
    ensures DecimalValue(Decimal(n)) == n
    decreases n
  {
    if n >= 10 {
      DecimalRoundTrip(n / 10);
      var s := Decimal(n);
      assert s[..|s| - 1] == Decimal(n / 10);
    }
  }

  /** `status.toString()`: a minus sign for a negative number, then the decimal digits. */
  function StatusText(status: int): (text: string)
    ensures |text| > 0
  {
    if status < 0 then "-" + Decimal(-status) else Decimal(status)
  }

  /** Comparing the text with "201" is comparing the number with 201. */
  lemma StatusTextIs201(status: int)
    ensures StatusText(status) == "201" <==> status == 201
  {
    assert Decimal(2) == "2";
    assert Decimal(20) == "20";
    assert Decimal(201) == "201";
    if status >= 0 && StatusText(status) == "201" {
      DecimalRoundTrip(status);
      assert DecimalValue("201") == 201 by {
        assert "201"[..2] == "20" && "20"[..1] == "2" && "2"[..0] == "";
      }
    }
  }

  // ---------------------------------------------------------------------------
  // The panel
  // ---------------------------------------------------------------------------

  /**
   * The state the page's closure keeps between events. Each field mirrors one
   * thing the handlers read or write; the comments name it.
   */
  class CreationPanel {
    var open: bool            // #creation-area has the class "open"
    var sending: bool         // isSendingWebsite
    var urlValue: string      // the value of #url-website
    var categoryValue: string // the value of #category-input
    var closeLoading: bool    // #close-creation-area has the class "loading"
    var submitDisabled: bool  // #submit-website-btn has the class "disabled"
    var urlDisabled: bool     // #url-website has the attribute "disabled"
    var urlValidate: bool     // #url-website has the class "validate"
    var lastIndex: nat        // urlRegExp.lastIndex
    var effects: seq<Effect>  // requests issued and toasts shown, oldest first

    /** The busy markers agree with `isSendingWebsite`. */
    predicate Valid()
      reads this
    {
      closeLoading == sending && submitDisabled == sending && urlDisabled == sending && urlValidate == !sending
    }

    /** Nothing in flight: no busy marker, `validate` on the URL input. */
    predicate Idle()
      reads this
    {
      Valid() && !sending
    }

    /** A submission in flight: every busy marker set, `validate` removed. */
    predicate Busy()
      reads this
    {
      Valid() && sending
    }

    /** What `clearCreationArea` leaves: the panel closed, both inputs empty, idle. */
    predicate Cleared()
      reads this
    {
      Idle() && !open && urlValue == "" && categoryValue == ""
    }

    /** Page load: the panel closed and empty, and the first list and category fetches. */
    constructor ()
      ensures Cleared() && lastIndex == 0
      ensures effects == [Get(Listing.ListUrl("")), Get(Listing.CategoriesUrl)]
    {
      open, sending := false, false;
      urlValue, categoryValue := "", "";
      closeLoading, submitDisabled, urlDisabled, urlValidate := false, false, false, true;
      lastIndex := 0;
      effects := [Get(Listing.ListUrl("")), Get(Listing.CategoriesUrl)];
    }

    /** The user types into the URL input; a disabled input takes no typing. */
    method EditUrl(value: string)
      requires Valid()
      modifies this`urlValue
      ensures Valid()
      ensures urlValue == if old(urlDisabled) then old(urlValue) else value
    {
      if !urlDisabled {
        urlValue := value;
      }
    }

    /** The user types into the category input, which is never disabled. */
    method EditCategory(value: string)
      requires Valid()
      modifies this`categoryValue
      ensures Valid()
      ensures categoryValue == value
    {
      categoryValue := value;
    }

    /** A click on the action button opens the panel, in any state. */
    method OpenPanel()
      requires Valid()
      modifies this`open
      ensures Valid() && open
    {
      open := true;
    }

    /** `clearCreationArea`. */
    method Clear()
      modifies this`urlValue, this`categoryValue, this`sending, this`closeLoading,
               this`submitDisabled, this`urlValidate, this`urlDisabled, this`open
      ensures Cleared()
    {
      urlValue := "";
      categoryValue := "";
      sending := false;
      closeLoading := false;
      submitDisabled := false;
      urlValidate := true;
      urlDisabled := false;
      open := false;
    }

    /** A click on the close button: ignored while a submission is in flight, otherwise closes and clears. */
    method ClosePanel()
      requires Valid()
      modifies this`urlValue, this`categoryValue, this`sending, this`closeLoading,
               this`submitDisabled, this`urlValidate, this`urlDisabled, this`open
      ensures Valid()
      ensures old(sending) ==> unchanged(this)
      ensures !old(sending) ==> Cleared()
    {
      if !sending {
        open := false;
        Clear();
      }
    }

    /**
     * The submit handler up to the creation request. `test` on the URL input
     * decides, and moves `lastIndex`; a rejected value changes nothing else.
     * An accepted one marks every control busy and issues the request with
     * the normalised category. The handler does not look at `sending`.
     */
    method SubmitStart() returns (accepted: bool)
      requires Valid()
      modifies this`lastIndex, this`sending, this`closeLoading, this`submitDisabled,
               this`urlValidate, this`urlDisabled, this`effects
      ensures Valid()
      ensures (accepted, lastIndex) == Test(old(lastIndex), urlValue)
      ensures old(lastIndex) == 0 && SingleLine(urlValue) ==> (accepted <==> Matches(urlValue))
      ensures old(lastIndex) > 0 && SingleLine(urlValue) ==> !accepted
      ensures !accepted ==>
                lastIndex == 0 && sending == old(sending) && closeLoading == old(closeLoading)
                && submitDisabled == old(submitDisabled) && urlValidate == old(urlValidate)
                && urlDisabled == old(urlDisabled) && effects == old(effects)
      ensures accepted ==> Busy() && effects == old(effects) + [Post(urlValue, NormalizeCategory(categoryValue))]
    {
      var found, next := Test(lastIndex, urlValue).0, Test(lastIndex, urlValue).1;
      if SingleLine(urlValue) {
        if lastIndex == 0 {
          TestFromStart(urlValue);
        } else {
          RetestFails(lastIndex, urlValue);
        }
      }
      lastIndex := next;
      accepted := found;
      if !accepted {
        return;
      }
      sending := true;
      closeLoading := true;
      submitDisabled := true;
      urlValidate := false;
      urlDisabled := true;
      var category := NormalizeCategory(categoryValue);
      effects := effects + [Post(urlValue, category)];
    }

    /** `websiteCreationFail`: clear the panel, show one toast. Also reached from a failed list or category fetch. */
    method CreationFail()
      modifies this`urlValue, this`categoryValue, this`sending, this`closeLoading,
               this`submitDisabled, this`urlValidate, this`urlDisabled, this`open, this`effects
      ensures Cleared() && effects == old(effects) + [FailureToast]
    {
      Clear();
      effects := effects + [FailureToast];
    }

    /** `websiteCreationSuccess`: clear the panel and fetch the whole list and the categories again. */
    method CreationSuccess()
      modifies this`urlValue, this`categoryValue, this`sending, this`closeLoading,
               this`submitDisabled, this`urlValidate, this`urlDisabled, this`open, this`effects
      ensures Cleared() && effects == old(effects) + [Get(Listing.ListUrl("")), Get(Listing.CategoriesUrl)]
    {
      Clear();
      effects := effects + [Get(Listing.ListUrl("")), Get(Listing.CategoriesUrl)];
    }

    /**
     * The rest of the submit handler, once the request settles. `raised` says
     * that the handler ends in an uncaught exception: after a network error
     * (the `catch` yields `undefined`, whose `status` is then read) and when
     * a 201 body fails to parse as JSON.
     */
    method Settle(outcome: Outcome) returns (raised: bool)
      requires Valid()
      modifies this`urlValue, this`categoryValue, this`sending, this`closeLoading,
               this`submitDisabled, this`urlValidate, this`urlDisabled, this`open, this`effects
      ensures Valid()
      ensures outcome.Rejected? ==> raised && Cleared() && effects == old(effects) + [FailureToast]
      ensures outcome.Responded? && outcome.status != 201 ==>
                !raised && Cleared() && effects == old(effects) + [FailureToast]
      ensures outcome == Responded(201, true) ==>
                !raised && Cleared() && effects == old(effects) + [Get(Listing.ListUrl("")), Get(Listing.CategoriesUrl)]
      ensures outcome == Responded(201, false) ==> raised && unchanged(this)
    {
      match outcome
      case Rejected =>
        CreationFail();
        raised := true;
      case Responded(status, jsonBody) =>
        StatusTextIs201(status);
        if StatusText(status) != "201" {
          CreationFail();
          raised := false;
        } else if !jsonBody {
          raised := true;
        } else {
          CreationSuccess();
          raised := false;
        }
    }
  }

  /**
   * A full round as written: a valid URL is submitted and created; the user
   * types a valid URL again and submits, and that submit is swallowed by the
   * validator's `lastIndex`; submitting once more goes through.
   */
  method ResubmitAfterSuccess(url: string, again: string) returns (first: bool, second: bool, third: bool)
    requires SingleLine(url) && Matches(url)
    requires SingleLine(again) && Matches(again)
    ensures first && !second && third
  {
    var panel := new CreationPanel();
    panel.OpenPanel();
    panel.EditUrl(url);
    first := panel.SubmitStart();
    var raised := panel.Settle(Responded(201, true));
    panel.OpenPanel();
    panel.EditUrl(again);
    second := panel.SubmitStart();
    third := panel.SubmitStart();
  }

  /**
   * Nothing stops a second request while one is in flight: with the URL
   * input disabled, submitting the form again (Enter in the category input)
   * passes the validator on its second try and posts the same request again.
   */
  method SecondRequestWhileSending(url: string, category: string) returns (requests: seq<Effect>, busy: bool)
    requires SingleLine(url) && Matches(url)
    ensures busy
    ensures requests == [Post(url, NormalizeCategory(category)), Post(url, NormalizeCategory(category))]
  {
    var panel := new CreationPanel();
    panel.OpenPanel();
    panel.EditUrl(url);
    panel.EditCategory(category);
    var e0 := panel.effects;
    var ok := panel.SubmitStart();
    ok := panel.SubmitStart();
    ok := panel.SubmitStart();
    busy := panel.Busy();
    requests := panel.effects[|e0|..];
  }

  /**
   * A 201 whose body fails to parse leaves the panel busy: the close button
   * is then ignored. Submitting again (Enter in the category input) is
   * swallowed once by the validator's `lastIndex`, then posts again; once
   * that request settles, the panel is cleared and closes.
   */
  method BusyUntilNextSettle(url: string) returns (openAfterClose: bool, swallowed: bool, resent: bool, openAtEnd: bool)
    requires SingleLine(url) && Matches(url)
    ensures openAfterClose && swallowed && resent && !openAtEnd
  {
    var panel := new CreationPanel();
    panel.OpenPanel();
    panel.EditUrl(url);
    var ok := panel.SubmitStart();
    var raised := panel.Settle(Responded(201, false));
    panel.ClosePanel();
    openAfterClose := panel.open;
    ok := panel.SubmitStart();
    swallowed := !ok;
    resent := panel.SubmitStart();
    raised := panel.Settle(Responded(201, true));
    openAtEnd := panel.open;
  }
}
