/** `categorizeItem`: the category of a line item from keywords in its
    lower-cased description. Marketing keywords are checked first, then
    facilities keywords; anything else is Operations. The tests are plain
    substring tests, so any word containing "rent" ("current", "parent")
    counts as a facilities keyword. */
module Categorizer {
  import opened Maybe
  import opened Text

  datatype Category = Marketing | Facilities | Operations {
    function Label(): string {
      match this
      case Marketing => "Marketing"
      case Facilities => "Facilities"
      case Operations => "Operations"
    }
  }

  predicate MarketingWords(d: string) {
    Includes(d, "marketing") || Includes(d, "advertising")
  }

  predicate FacilitiesWords(d: string) {
    Includes(d, "facility") || Includes(d, "facilities") || Includes(d, "rent")
  }

  /** The keyword `w` occurs somewhere in the description, ignoring case. */
  ghost predicate Mentions(description: string, w: string) {
    exists i :: OccursAt(Lower(description), w, i)
  }

  /** The rule, both ways: Marketing exactly when a marketing keyword occurs;
      Facilities exactly when a facilities keyword occurs and no marketing
      keyword does; Operations otherwise. A null description is treated as
      the empty one. */
  function Categorize(description: Option<string>): (c: Category)
    ensures var d := description.GetOr("");
      && (c == Marketing <==> Mentions(d, "marketing") || Mentions(d, "advertising"))
      && (c == Facilities <==>
            && !(Mentions(d, "marketing") || Mentions(d, "advertising"))
            && (Mentions(d, "facility") || Mentions(d, "facilities") || Mentions(d, "rent")))
    ensures c.Label() in {"Marketing", "Facilities", "Operations"}
  {
    var d := Lower(description.GetOr(""));
    if MarketingWords(d) then Marketing
    else if FacilitiesWords(d) then Facilities
    else Operations
  }

  /** A null or empty description is Operations. */
  lemma NoDescriptionIsOperations()
    ensures Categorize(None) == Operations
    ensures Categorize(Some("")) == Operations
  {
    assert Lower("") == "";
  }

  /** Upper and lower case make no difference. */
  lemma CategorizeIgnoresCase(description: string)
    ensures Categorize(Some(Lower(description))) == Categorize(Some(description))
  {
    LowerIdempotent(description);
  }

  /** A description with both a marketing and a facilities keyword is
      Marketing, because the marketing test comes first. */
  lemma MarketingWins(description: string)
    requires Mentions(description, "advertising") || Mentions(description, "marketing")
    requires Mentions(description, "rent")
    ensures Categorize(Some(description)) == Marketing
  {
  }
}
