/**
 * The keyword short-circuit of `/chat`: an ordered table of eight phrases,
 * each with a canned reply. The first phrase that occurs anywhere in the
 * lower-cased message wins; because the test is a substring test, "hi" fires
 * inside "this" or "which".
 */
module Keywords {
  import opened Wrappers
  import opened Text

  const HiReply := "Hello! How can I assist you today?"
  const HelloReply := "Hi there! How can I help you?"
  const HeyReply := "Hey! What can I do for you?"
  const AddressReply := "Our office address is 123 Wallingford St, Wallingford, USA."
  const ContactReply := "You can contact us via email at support@wallingford.com or call us at +123456789."
  const EmailReply := "You can reach us at support@wallingford.com."
  const PhoneReply := "Our contact number is +123456789."
  const CallReply := "Please feel free to give us a call at +123456789."

  /** `KEYWORD_RESPONSES`, in the dict's insertion order. */
  const KeywordResponses: seq<(string, string)> := [
    ("hi", HiReply),
    ("hello", HelloReply),
    ("hey", HeyReply),
    ("address", AddressReply),
    ("contact", ContactReply),
    ("email", EmailReply),
    ("phone", PhoneReply),
    ("call", CallReply)
  ]

  /**
   * The table's eight phrases are already lower-case, so `keyword.lower()`
   * leaves each of them as written.
   */
  lemma KeywordPhrasesAreLowercase()
    ensures |KeywordResponses| == 8
    ensures forall i :: 0 <= i < |KeywordResponses| ==> Lower(KeywordResponses[i].0) == KeywordResponses[i].0
  {
    forall i | 0 <= i < |KeywordResponses|
      ensures Lower(KeywordResponses[i].0) == KeywordResponses[i].0
    {
      AsciiLowercase(KeywordResponses[i].0);
    }
  }

  /** Entry `i` of `table` fires on `input`: its lowered phrase occurs in the lowered input. */
  ghost predicate Fires(table: seq<(string, string)>, i: int, input: string)
  {
    0 <= i < |table| && Occurs(Lower(table[i].0), Lower(input))
  }

  /** The reply of the first entry of `table` at or after `i` whose phrase occurs in `lowered`. */
  function RouteFrom(table: seq<(string, string)>, i: nat, lowered: string): Option<string>
    decreases |table| - i
  {
    if i >= |table| then None
    else if Occurs(Lower(table[i].0), lowered) then Some(table[i].1)
    else RouteFrom(table, i + 1, lowered)
  }

  /** The canned reply for `input`, if any entry of the keyword table fires. */
  function Route(input: string): Option<string>
  {
    RouteFrom(KeywordResponses, 0, Lower(input))
  }

  lemma {:induction false} RouteFromIsFirstMatch(table: seq<(string, string)>, i: nat, input: string)
    requires i <= |table|
    ensures RouteFrom(table, i, Lower(input)) == None <==>
              forall j :: i <= j < |table| ==> !Fires(table, j, input)
    ensures forall j :: i <= j < |table| && Fires(table, j, input)
                        && (forall m :: i <= m < j ==> !Fires(table, m, input))
                        ==> RouteFrom(table, i, Lower(input)) == Some(table[j].1)
    decreases |table| - i
  {
    if i < |table| {
      if Fires(table, i, input) {
        assert RouteFrom(table, i, Lower(input)) == Some(table[i].1);
      } else {
        RouteFromIsFirstMatch(table, i + 1, input);
        assert RouteFrom(table, i, Lower(input)) == RouteFrom(table, i + 1, Lower(input));
      }
    }
  }

  /**
   * Route answers with the reply of the first entry, in table order, whose
   * phrase occurs in the lowered input, and with nothing exactly when no
   * phrase occurs.
   */
  lemma RouteIsFirstMatch(input: string)
    ensures Route(input) == None <==>
              forall j :: 0 <= j < |KeywordResponses| ==> !Fires(KeywordResponses, j, input)
    ensures forall j :: 0 <= j < |KeywordResponses| && Fires(KeywordResponses, j, input)
                        && (forall m :: 0 <= m < j ==> !Fires(KeywordResponses, m, input))
                        ==> Route(input) == Some(KeywordResponses[j].1)
  {
    RouteFromIsFirstMatch(KeywordResponses, 0, input);
  }

  /**
   * The loop of `/chat` over the table, with its early return on the first
   * phrase found in the message.
   */
  method MatchKeyword(userInput: string) returns (reply: Option<string>)
    ensures reply == Route(userInput)
  {
    var i := 0;
    while i < |KeywordResponses|
      invariant 0 <= i <= |KeywordResponses|
      invariant Route(userInput) == RouteFrom(KeywordResponses, i, Lower(userInput))
    {
      var (keyword, response) := KeywordResponses[i];
      if Occurs(Lower(keyword), Lower(userInput)) {
        return Some(response);
      }
      i := i + 1;
    }
    return None;
  }

  /**
   * "hi" heads the table, so any message containing those two letters, even
   * inside a longer word, gets the greeting whatever else it mentions.
   */
  lemma HiOutranksEverything(input: string)
    requires Occurs("hi", Lower(input))
    ensures Route(input) == Some(HiReply)
  {
    assert Lower("hi") == "hi";
    assert Fires(KeywordResponses, 0, input);
    FirstFiring(KeywordResponses, 0, input);
  }

  /** "what is this" is answered with the greeting, through the "hi" inside "this". */
  lemma ThisIsGreeted(input: string)
    requires input == "what is this"
    ensures Route(input) == Some(HiReply)
  {
    assert Lower(input) == input by { AsciiLowercase(input); }
    assert input[9..11] == "hi" by { assert input[9] == 'h' && input[10] == 'i'; }
    OccursFromWitness("hi", Lower(input), 9);
    HiOutranksEverything(input);
  }

  /** The first entry of `table` that fires decides the route. */
  lemma FirstFiring(table: seq<(string, string)>, j: nat, input: string)
    requires j < |table| && Fires(table, j, input)
    requires forall m :: 0 <= m < j ==> !Fires(table, m, input)
    ensures RouteFrom(table, 0, Lower(input)) == Some(table[j].1)
  {
    RouteFromIsFirstMatch(table, 0, input);
  }

  /** Text with no upper-case ASCII letter is its own lower-case form. */
  lemma AsciiLowercase(s: string)
    requires forall i :: 0 <= i < |s| ==> !('A' <= s[i] <= 'Z')
    ensures Lower(s) == s
  {
  }
}
