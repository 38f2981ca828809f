/**
 * chatbot/chatbot.php: the keyword classifier over the lower-cased message,
 * the reply of each rule group, the field capture of the recommendation
 * rule, the empty-message error, and the log of each answered message.
 *
 * Every rule pattern is an unanchored alternation of literal words tried
 * on a message that is already lower case, so a group matches exactly when
 * one of its words occurs in the message as a substring.
 */
module Chatbot {
  import opened Wrappers
  import opened PhpText

  datatype Intent =
    | Greeting | Products | Tracking | SizeGuide | Returns
    | Support | Promotions | Clothing | Recommend | Fallback

  /** The order in which the groups are tried. */
  function Rank(g: Intent): nat {
    match g
    case Greeting => 0
    case Products => 1
    case Tracking => 2
    case SizeGuide => 3
    case Returns => 4
    case Support => 5
    case Promotions => 6
    case Clothing => 7
    case Recommend => 8
    case Fallback => 9
  }

  /** The words of each group's pattern. */
  function Keywords(g: Intent): seq<string> {
    match g
    case Greeting => ["hello", "hi", "hey", "good morning", "good afternoon", "good evening"]
    case Products => ["shoe", "sneaker", "running", "football", "boot"]
    case Tracking => ["track", "order", "delivery", "shipping"]
    case SizeGuide => ["size", "fit", "measurement"]
    case Returns => ["return", "refund", "exchange"]
    case Support => ["help", "support", "contact", "speak", "talk", "agent"]
    case Promotions => ["deal", "discount", "promotion", "sale", "offer"]
    case Clothing => ["clothing", "outfit", "wear", "size", "sport"]
    case Recommend => ["recommend", "suggest", "advice"]
    case Fallback => []
  }

  /** `preg_match` of the group's pattern on the message. */
  predicate Matches(msg: string, g: Intent) {
    exists k | 0 <= k < |Keywords(g)| :: Contains(msg, Keywords(g)[k])
  }

  /** The if/elseif chain (chatbot.php:55-174): the first group that
      matches decides; when none does, the fallback. */
  function Classify(msg: string): (r: Intent)
    ensures r != Fallback ==> Matches(msg, r)
    ensures forall g :: Rank(g) < Rank(r) ==> !Matches(msg, g)
    ensures r == Fallback <==> forall g :: g != Fallback ==> !Matches(msg, g)
  {
    if Matches(msg, Greeting) then Greeting
    else if Matches(msg, Products) then Products
    else if Matches(msg, Tracking) then Tracking
    else if Matches(msg, SizeGuide) then SizeGuide
    else if Matches(msg, Returns) then Returns
    else if Matches(msg, Support) then Support
    else if Matches(msg, Promotions) then Promotions
    else if Matches(msg, Clothing) then Clothing
    else if Matches(msg, Recommend) then Recommend
    else Fallback
  }

  // ---- the field capture of the recommendation rule ----

  /** PCRE's `\s`: space, tab, line feed, vertical tab, form feed, return. */
  predicate IsSpace(c: char) {
    c == ' ' || 9 <= c as int <= 13
  }

  datatype CharClass = Digits | Letters | SizeLetters

  /** `\d`, `[a-zA-Z]` and `[SMLXL]` under the case-insensitive flag. */
  predicate InClass(c: char, cls: CharClass) {
    match cls
    case Digits => '0' <= c <= '9'
    case Letters => 'a' <= c <= 'z' || 'A' <= c <= 'Z'
    case SizeLetters => c in "smlxSMLX"
  }

  /** The end of the `\s*` run starting at `i`. */
  function SkipSpace(s: string, i: nat): (j: nat)
    requires i <= |s|
    ensures i <= j <= |s|
    ensures forall k :: i <= k < j ==> IsSpace(s[k])
    ensures j < |s| ==> !IsSpace(s[j])
    decreases |s| - i
  {
    if i < |s| && IsSpace(s[i]) then SkipSpace(s, i + 1) else i
  }

  /** The end of the longest run of `cls` characters starting at `i`. */
  function RunEnd(s: string, i: nat, cls: CharClass): (j: nat)
    requires i <= |s|
    ensures i <= j <= |s|
    ensures forall k :: i <= k < j ==> InClass(s[k], cls)
    ensures j < |s| ==> !InClass(s[j], cls)
    decreases |s| - i
  {
    if i < |s| && InClass(s[i], cls) then RunEnd(s, i + 1, cls) else i
  }

  /** `tag\s*(cls+)` tried at position `i`: the group, if it matches there. */
  function CaptureAt(s: string, tag: string, cls: CharClass, i: nat): (r: Option<string>)
    requires i <= |s|
    ensures r.Some? ==> ContainsAt(s, tag, i)
    ensures r.Some? ==> |r.value| > 0 && forall c :: c in r.value ==> InClass(c, cls)
  {
    if !ContainsAt(s, tag, i) then None
    else
      var start := SkipSpace(s, i + |tag|);
      var end := RunEnd(s, start, cls);
      if start < end then Some(s[start..end]) else None
  }

  /** The leftmost match from position `i` on. */
  function CaptureFrom(s: string, tag: string, cls: CharClass, i: nat): (r: Option<string>)
    requires i <= |s| + 1
    ensures r.Some? ==> Contains(s, tag)
    ensures r.Some? ==> |r.value| > 0 && forall c :: c in r.value ==> InClass(c, cls)
    ensures r.Some? <==> exists k | i <= k <= |s| :: CaptureAt(s, tag, cls, k).Some?
    ensures r.Some? ==> exists k | i <= k <= |s| ::
      r == CaptureAt(s, tag, cls, k) && forall j | i <= j < k :: CaptureAt(s, tag, cls, j).None?
    decreases |s| + 1 - i
  {
    if i > |s| then None
    else
      var here := CaptureAt(s, tag, cls, i);
      if here.Some? then
        here
      else
        var rest := CaptureFrom(s, tag, cls, i + 1);
        assert (exists k | i <= k <= |s| :: CaptureAt(s, tag, cls, k).Some?) ==>
               exists k | i + 1 <= k <= |s| :: CaptureAt(s, tag, cls, k).Some?;
        rest
  }

  /** The first group of the pattern: `tag`, optional white space, then a run of
      `cls` characters, case-insensitively; none when the pattern does not match. */
  function Capture(s: string, tag: string, cls: CharClass): (r: Option<string>)
    ensures r.Some? ==> Contains(s, tag)
    ensures r.Some? ==> |r.value| > 0 && forall c :: c in r.value ==> InClass(c, cls)
    // the pattern matches somewhere exactly when there is a capture, and the
    // capture is the group of the leftmost match
    ensures r.Some? <==> exists k | 0 <= k <= |s| :: CaptureAt(s, tag, cls, k).Some?
    ensures r.Some? ==> exists k | 0 <= k <= |s| ::
      r == CaptureAt(s, tag, cls, k) && forall j | 0 <= j < k :: CaptureAt(s, tag, cls, j).None?
  {
    CaptureFrom(s, tag, cls, 0)
  }

  /** A capture PHP counts as filled: a match whose group is not "0". */
  predicate Filled(m: Option<string>) {
    m.Some? && !Empty(m.value)
  }

  const RecommendPrefix := "Based on your input:"
  const RecommendIncomplete := " Please provide complete information for better suggestions."

  /** The recommendation rule's message (chatbot.php:148-158). The size
      field is captured but never used. */
  function RecommendMessage(msg: string): (r: string)
    ensures r == RecommendPrefix + RecommendIncomplete <==>
      !(Filled(Capture(msg, "weight:", Digits)) && Filled(Capture(msg, "height:", Digits)) &&
        Filled(Capture(msg, "sport:", Letters)))
  {
    var weight := Capture(msg, "weight:", Digits);
    var height := Capture(msg, "height:", Digits);
    var sport := Capture(msg, "sport:", Letters);
    if Filled(weight) && Filled(height) && Filled(sport) then
      RecommendPrefix + " For a weight of " + weight.value + " kg and height of " + height.value +
      " cm, suitable clothing for " + sport.value + " would be recommended."
    else
      RecommendPrefix + RecommendIncomplete
  }

  // ---- the replies ----

  /** A row of getProductSuggestions: name and price. */
  datatype ProductHit = ProductHit(name: string, price: int)

  datatype ChatResponse = ChatResponse(message: string, suggestions: seq<string>, error: bool)

  const ProductHeader := "Here are some products you might like:"

  /** One line per suggested product; `format` is number_format($price, 2). */
  function ProductLine(hit: ProductHit, format: int -> string): string {
    "\n- " + hit.name + " ($" + format(hit.price) + ")"
  }

  function ProductLines(hits: seq<ProductHit>, format: int -> string): string {
    Join(seq(|hits|, i requires 0 <= i < |hits| => ProductLine(hits[i], format)))
  }

  /** The `foreach` that appends one line per product (chatbot.php:68-71). */
  method ProductMessage(hits: seq<ProductHit>, format: int -> string) returns (message: string)
    ensures message == ProductHeader + ProductLines(hits, format)
  {
    message := ProductHeader;
    for i := 0 to |hits|
      invariant message == ProductHeader + ProductLines(hits[..i], format)
    {
      message := message + "\n- " + hits[i].name + " ($" + format(hits[i].price) + ")";
      ProductLinesSnoc(hits[..i + 1], format);
      assert hits[..i + 1][..i] == hits[..i];
    }
    assert hits[..|hits|] == hits;
  }

  /** The reply of each group (chatbot.php:55-173); `hits` is what
      getProductSuggestions returned for the message. */
  function Reply(msg: string, hits: seq<ProductHit>, format: int -> string): ChatResponse {
    match Classify(msg)
    case Greeting =>
      ChatResponse("Hello! Welcome to Adidas. How can I help you today?",
                   ["Show me new arrivals", "Track my order", "Size guide", "Contact support"], false)
    case Products =>
      if hits != [] then
        ChatResponse(ProductHeader + ProductLines(hits, format),
                     ["Show me more products", "Filter by price", "View size guide"], false)
      else
        ChatResponse("I can help you find the perfect shoes. What type are you looking for?",
                     ["Running shoes", "Football boots", "Casual sneakers", "Training shoes"], false)
    case Tracking =>
      ChatResponse("To track your order, please enter your order number or visit your account page.",
                   ["View my orders", "Contact support", "Shipping policy"], false)
    case SizeGuide =>
      ChatResponse("Our size guide can help you find the perfect fit. Would you like to see the size chart for:",
                   ["Men's shoes", "Women's shoes", "Kids' shoes", "Clothing"], false)
    case Returns =>
      ChatResponse("Our return policy allows returns within 30 days of purchase. Would you like to:",
                   ["Start a return", "Return policy", "Track return", "Contact support"], false)
    case Support =>
      ChatResponse("Our customer support team is here to help! You can:",
                   ["Call us: 1-800-123-4567", "Email: support@example.com", "Live chat with agent", "FAQ"],
                   false)
    case Promotions =>
      ChatResponse("Check out our current promotions:",
                   ["View sale items", "Student discount", "Newsletter signup", "Member benefits"], false)
    case Clothing =>
      ChatResponse("Please provide your weight, height, and preferred sport to get clothing recommendations.",
                   ["Weight and height", "Sport type", "Size preferences"], false)
    case Recommend =>
      ChatResponse(RecommendMessage(msg),
                   ["Provide more details", "Ask about specific clothing", "General inquiries"], false)
    case Fallback =>
      ChatResponse("I'm not sure I understand. How can I help you with:",
                   ["Product information", "Order tracking", "Returns & exchanges", "Contact support"], false)
  }

  /** A row of chatbot_messages. */
  datatype LogEntry = LogEntry(userId: Option<int>, message: string, response: string)

  class ChatLog {
    var entries: seq<LogEntry>

    constructor ()
      ensures entries == []
    {
      entries := [];
    }
  }

  /** The message as classified: sanitized ("" when missing) and lower-cased. */
  function Normalise(raw: Option<string>, sanitize: string -> string): string {
    Lower(sanitize(raw.GetOr("")))
  }

  /** The endpoint (chatbot.php:8-184). `suggest` is getProductSuggestions,
      `logFails` says whether the log insert throws (the exception is
      swallowed). */
  method HandleMessage(log: ChatLog, raw: Option<string>, userId: Option<int>,
                       sanitize: string -> string, suggest: string -> seq<ProductHit>,
                       format: int -> string, logFails: bool)
    returns (response: ChatResponse)
    modifies log
    ensures var msg := Normalise(raw, sanitize);
            Empty(msg) ==>
              response == ChatResponse("Please enter a message.", [], true) &&
              log.entries == old(log.entries)
    ensures var msg := Normalise(raw, sanitize);
            !Empty(msg) ==>
              response == Reply(msg, suggest(msg), format) &&
              log.entries == old(log.entries) +
                (if logFails then [] else [LogEntry(userId, msg, response.message)])
  {
    var message := Lower(sanitize(if raw.Some? then raw.value else ""));
    if Empty(message) {
      return ChatResponse("Please enter a message.", [], true);
    }
    var intent := Classify(message);
    if intent == Products {
      var hits := suggest(message);
      if hits != [] {
        var text := ProductMessage(hits, format);
        response := ChatResponse(text, ["Show me more products", "Filter by price", "View size guide"], false);
      } else {
        response := Reply(message, hits, format);
      }
    } else {
      response := Reply(message, suggest(message), format);
    }
    if !logFails {
      log.entries := log.entries + [LogEntry(userId, message, response.message)];
    }
  }

  // ---- what the order of the groups implies ----

  /** "hi" occurs inside "shipping", so a message about shipping gets the
      greeting, not the tracking reply. */
  lemma ShippingIsGreeting(msg: string)
    requires Contains(msg, "shipping")
    ensures Classify(msg) == Greeting
  {
    assert ContainsAt("shipping", "hi", 1);
    ContainsTransitive(msg, "shipping", "hi");
    assert Keywords(Greeting)[1] == "hi";
  }

  /** The clothing group's "size" never decides: the size-guide group,
      tried earlier, holds the same word. */
  lemma ClothingNeverBySize(msg: string)
    requires Classify(msg) == Clothing
    ensures !Contains(msg, "size")
    ensures exists k | 0 <= k < |Keywords(Clothing)| :: Keywords(Clothing)[k] != "size" &&
                                                      Contains(msg, Keywords(Clothing)[k])
  {
    assert !Matches(msg, SizeGuide);
    assert Keywords(SizeGuide)[0] == "size";
  }

  /** The detailed recommendation is unreachable: it needs "sport:" in the
      message, and a message containing "sport" is taken by the clothing
      group before the recommendation group is tried. */
  lemma DetailedRecommendationUnreachable(msg: string, hits: seq<ProductHit>, format: int -> string)
    requires Classify(msg) == Recommend
    ensures Capture(msg, "sport:", Letters).None?
    ensures Reply(msg, hits, format).message == RecommendPrefix + RecommendIncomplete
  {
    assert !Matches(msg, Clothing);
    assert Keywords(Clothing)[4] == "sport";
    if Capture(msg, "sport:", Letters).Some? {
      assert ContainsAt("sport:", "sport", 0);
      ContainsTransitive(msg, "sport:", "sport");
      assert false;
    }
  }

  /** Each suggested product is named in the reply, on its own line. */
  lemma ProductsAreListed(hits: seq<ProductHit>, format: int -> string, k: int)
    requires 0 <= k < |hits|
    ensures Contains(ProductLines(hits, format), ProductLine(hits[k], format))
  {
    JoinContainsPart(seq(|hits|, i requires 0 <= i < |hits| => ProductLine(hits[i], format)), k);
  }

  lemma ProductLinesSnoc(hits: seq<ProductHit>, format: int -> string)
    requires hits != []
    ensures ProductLines(hits, format) ==
            ProductLines(hits[..|hits| - 1], format) + ProductLine(hits[|hits| - 1], format)
  {
    var lines := seq(|hits|, i requires 0 <= i < |hits| => ProductLine(hits[i], format));
    var front := hits[..|hits| - 1];
    assert lines[..|lines| - 1] == seq(|front|, i requires 0 <= i < |front| => ProductLine(front[i], format));
  }
}
