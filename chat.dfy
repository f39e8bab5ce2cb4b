/**
 * The shopping assistant in `routes/ai.js`: `POST /chat` validates the
 * message, lower-cases it and answers with the reply of the first keyword
 * rule the message contains, in a fixed order; `GET /recommendations/:id`
 * returns a constant list.
 */
module Chat {

  /** The longest message accepted, in UTF-16 code units (`message.length`). */
  const MaxMessageLength := 1000

  /** The `message` field of the request body. */
  datatype Body = Absent | NonString | Text(s: string)

  /** The canned answers, one per keyword rule, then the fallback. */
  datatype Reply =
    | Tablets | Laptops | Phones | Audio | Accessories
    | Comparison | Pricing | Availability | Specifications
    | Returns | Shipping | Payment | Warranty | Tracking | Cancellation | Greeting | Help | Support
    | TopRated | NewArrivals | Gifts | WorkPicks
    | Fallback

  datatype ChatError = InvalidFormat | TooLong

  datatype ChatResponse = Rejected(error: ChatError) | Answer(reply: Reply)

  /** A rule fires when the message contains any one of its keywords. */
  datatype Rule = Rule(keywords: seq<string>, reply: Reply)

  /** The product-category, comparison, price, stock and specification tests, in order. */
  const ProductRules: seq<Rule> := [
    Rule(["tablet", "ipad"], Tablets),
    Rule(["laptop", "computer"], Laptops),
    Rule(["phone", "mobile", "smartphone"], Phones),
    Rule(["headphone", "earphone", "audio"], Audio),
    Rule(["accessory", "accessories"], Accessories),
    Rule(["compare", "difference", "vs"], Comparison),
    Rule(["price", "cost", "budget", "cheap", "affordable"], Pricing),
    Rule(["stock", "available", "in stock"], Availability),
    Rule(["spec", "feature", "detail"], Specifications)
  ]

  /** The `responses` dictionary, in its key order. */
  const ServiceRules: seq<Rule> := [
    Rule(["return"], Returns),
    Rule(["shipping"], Shipping),
    Rule(["payment"], Payment),
    Rule(["warranty"], Warranty),
    Rule(["track"], Tracking),
    Rule(["cancel"], Cancellation),
    Rule(["hello"], Greeting),
    Rule(["help"], Help),
    Rule(["support"], Support)
  ]

  /** The suggestion tests after the dictionary, in order. */
  const SuggestionRules: seq<Rule> := [
    Rule(["best", "top"], TopRated),
    Rule(["new", "latest"], NewArrivals),
    Rule(["gift", "present"], Gifts),
    Rule(["work", "office", "business"], WorkPicks)
  ]

  const Rules: seq<Rule> := ProductRules + ServiceRules + SuggestionRules

  /** The position of a reply's rule in `Rules`; `|Rules|` for the fallback. */
  function Rank(r: Reply): nat
  {
    match r
    case Tablets => 0 case Laptops => 1 case Phones => 2 case Audio => 3 case Accessories => 4
    case Comparison => 5 case Pricing => 6 case Availability => 7 case Specifications => 8
    case Returns => 9 case Shipping => 10 case Payment => 11 case Warranty => 12 case Tracking => 13
    case Cancellation => 14 case Greeting => 15 case Help => 16 case Support => 17
    case TopRated => 18 case NewArrivals => 19 case Gifts => 20 case WorkPicks => 21
    case Fallback => 22
  }

  /** Every rule sits at its reply's rank, so no two rules share a reply. */
  lemma RulesRanked()
    ensures |Rules| == Rank(Fallback)
    ensures forall i :: 0 <= i < |Rules| ==> Rank(Rules[i].reply) == i
  {
    assert |Rules| == 22;
    forall i | 0 <= i < |Rules|
      ensures Rank(Rules[i].reply) == i
    {
      if i < 9 {
        assert Rules[i] == ProductRules[i];
      } else if i < 18 {
        assert Rules[i] == ServiceRules[i - 9];
      } else {
        assert Rules[i] == SuggestionRules[i - 18];
      }
    }
  }

  /** `String.prototype.includes`: `sub` occurs in `s` at some position. */
  function Contains(s: string, sub: string): bool
    decreases |s|
  {
    |sub| <= |s| && (s[..|sub|] == sub || Contains(s[1..], sub))
  }

  /** `sub` occurs in `s` starting at index `i`. */
  predicate OccursAt(s: string, sub: string, i: int)
  {
    0 <= i <= |s| - |sub| && s[i..i + |sub|] == sub
  }

  /** An occurrence at some index makes `Contains` hold. */
  lemma {:induction false} OccursContains(s: string, sub: string, i: int)
    requires OccursAt(s, sub, i)
    ensures Contains(s, sub)
    decreases i
  {
    if i > 0 && s[..|sub|] != sub {
      assert s[1..][i - 1..i - 1 + |sub|] == s[i..i + |sub|];
      OccursContains(s[1..], sub, i - 1);
    }
  }

  /** When `Contains` holds, `sub` occurs at some index. */
  lemma {:induction false} ContainsOccurs(s: string, sub: string)
    requires Contains(s, sub)
    ensures exists i :: OccursAt(s, sub, i)
    decreases |s|
  {
    if s[..|sub|] == sub {
      assert OccursAt(s, sub, 0);
    } else {
      ContainsOccurs(s[1..], sub);
      var i :| OccursAt(s[1..], sub, i);
      assert s[1..][i..i + |sub|] == s[i + 1..i + 1 + |sub|];
      assert OccursAt(s, sub, i + 1);
    }
  }

  /** `Contains` holds exactly when `sub` occurs in `s` at some index. */
  lemma ContainsAt(s: string, sub: string)
    ensures Contains(s, sub) <==> exists i :: OccursAt(s, sub, i)
  {
    if Contains(s, sub) {
      ContainsOccurs(s, sub);
    }
    forall i | OccursAt(s, sub, i)
      ensures Contains(s, sub)
    {
      OccursContains(s, sub, i);
    }
  }

  /** A message containing `big` contains everything `big` contains. */
  lemma ContainsTransitive(s: string, big: string, sub: string)
    requires Contains(s, big) && Contains(big, sub)
    ensures Contains(s, sub)
  {
    ContainsAt(s, big);
    ContainsAt(big, sub);
    var i :| OccursAt(s, big, i);
    var j :| OccursAt(big, sub, j);
    forall k | 0 <= k < |sub|
      ensures s[i + j + k] == sub[k]
    {
      assert s[i + j + k] == s[i..i + |big|][j + k] == big[j + k] == big[j..j + |sub|][k];
    }
    assert s[i + j..i + j + |sub|] == sub;
    assert OccursAt(s, sub, i + j);
    ContainsAt(s, sub);
  }

  /** The `||` chain of `includes` tests of one rule. */
  function AnyIn(m: string, keywords: seq<string>): (r: bool)
    ensures r <==> exists i :: 0 <= i < |keywords| && Contains(m, keywords[i])
  {
    if |keywords| == 0 then false
    else Contains(m, keywords[0]) || AnyIn(m, keywords[1..])
  }

  /** The first rule in `rules` that `m` triggers decides the reply; none gives the fallback. */
  function FirstMatch(rules: seq<Rule>, m: string): Reply
  {
    if |rules| == 0 then Fallback
    else if AnyIn(m, rules[0].keywords) then rules[0].reply
    else FirstMatch(rules[1..], m)
  }

  /** `FirstMatch` answers with rule `i`'s reply when rule `i` fires and no earlier rule does. */
  lemma {:induction false} FirstMatchAt(rules: seq<Rule>, m: string, i: nat)
    requires i < |rules| && AnyIn(m, rules[i].keywords)
    requires forall j :: 0 <= j < i ==> !AnyIn(m, rules[j].keywords)
    ensures FirstMatch(rules, m) == rules[i].reply
  {
    if i > 0 {
      assert !AnyIn(m, rules[0].keywords);
      FirstMatchAt(rules[1..], m, i - 1);
    }
  }

  /** `FirstMatch` falls back exactly when no rule fires, and otherwise answers with some rule's reply. */
  lemma {:induction false} FirstMatchFallback(rules: seq<Rule>, m: string)
    ensures (forall j :: 0 <= j < |rules| ==> !AnyIn(m, rules[j].keywords)) ==> FirstMatch(rules, m) == Fallback
    ensures (exists j :: 0 <= j < |rules| && AnyIn(m, rules[j].keywords))
      ==> exists i :: (0 <= i < |rules| && AnyIn(m, rules[i].keywords) && FirstMatch(rules, m) == rules[i].reply
                       && forall j :: 0 <= j < i ==> !AnyIn(m, rules[j].keywords))
  {
    if |rules| > 0 {
      FirstMatchFallback(rules[1..], m);
      if !AnyIn(m, rules[0].keywords) {
        if exists j :: 0 <= j < |rules| && AnyIn(m, rules[j].keywords) {
          var j :| 0 <= j < |rules| && AnyIn(m, rules[j].keywords);
          assert rules[1..][j - 1] == rules[j];
          var i :| 0 <= i < |rules[1..]| && AnyIn(m, rules[1..][i].keywords) && FirstMatch(rules[1..], m) == rules[1..][i].reply
            && forall k :: 0 <= k < i ==> !AnyIn(m, rules[1..][k].keywords);
          assert rules[i + 1] == rules[1..][i];
          forall k | 0 <= k < i + 1
            ensures !AnyIn(m, rules[k].keywords)
          {
            if k > 0 {
              assert rules[k] == rules[1..][k - 1];
            }
          }
        } else {
          forall j | 0 <= j < |rules[1..]|
            ensures !AnyIn(m, rules[1..][j].keywords)
          {
            assert rules[1..][j] == rules[j + 1];
          }
        }
      }
    }
  }

  /** The keyword cascade on a lower-cased message. */
  function Classify(m: string): Reply
  {
    FirstMatch(Rules, m)
  }

  /**
   * Priority: the reply is `r` exactly when `r`'s rule fires and no earlier
   * rule does, or `r` is the fallback and no rule fires at all.
   */
  lemma ClassifyIff(m: string, r: Reply)
    ensures Classify(m) == r <==>
      if r == Fallback then forall j :: 0 <= j < |Rules| ==> !AnyIn(m, Rules[j].keywords)
      else AnyIn(m, Rules[Rank(r)].keywords) && forall j :: 0 <= j < Rank(r) ==> !AnyIn(m, Rules[j].keywords)
  {
    RulesRanked();
    RankedFirstMatch(Rules, m, r);
  }

  /** `ClassifyIff` for any rule list that holds each reply at its rank. */
  lemma RankedFirstMatch(rules: seq<Rule>, m: string, r: Reply)
    requires |rules| == Rank(Fallback)
    requires forall i :: 0 <= i < |rules| ==> Rank(rules[i].reply) == i
    ensures FirstMatch(rules, m) == r <==>
      if r == Fallback then forall j :: 0 <= j < |rules| ==> !AnyIn(m, rules[j].keywords)
      else AnyIn(m, rules[Rank(r)].keywords) && forall j :: 0 <= j < Rank(r) ==> !AnyIn(m, rules[j].keywords)
  {
    FirstMatchFallback(rules, m);
    if r != Fallback && AnyIn(m, rules[Rank(r)].keywords) && forall j :: 0 <= j < Rank(r) ==> !AnyIn(m, rules[j].keywords) {
      FirstMatchAt(rules, m, Rank(r));
      RankInjective(rules[Rank(r)].reply, r);
    }
  }

  /** No two replies share a rank. */
  lemma RankInjective(a: Reply, b: Reply)
    ensures Rank(a) == Rank(b) ==> a == b
  {
  }

  /**
   * The audio rule's "headphone" and "earphone" keywords never decide: both
   * contain "phone", which the earlier phone rule tests, so a message
   * mentioning headphones gets a tablet, laptop or phone answer.
   */
  lemma HeadphonesAnsweredAsPhones(m: string)
    requires Contains(m, "headphone") || Contains(m, "earphone")
    ensures Classify(m) in {Tablets, Laptops, Phones}
  {
    PhoneInside();
    if Contains(m, "headphone") {
      ContainsTransitive(m, "headphone", "phone");
    } else {
      ContainsTransitive(m, "earphone", "phone");
    }
    PhoneDecidesEarly(m);
  }

  /** Both audio keywords spell "phone" inside them. */
  lemma PhoneInside()
    ensures Contains("headphone", "phone") && Contains("earphone", "phone")
  {
    assert OccursAt("headphone", "phone", 4);
    OccursContains("headphone", "phone", 4);
    assert OccursAt("earphone", "phone", 3);
    OccursContains("earphone", "phone", 3);
  }

  /** A message containing "phone" is answered by the tablet, laptop or phone rule. */
  lemma PhoneDecidesEarly(m: string)
    requires Contains(m, "phone")
    ensures Classify(m) in {Tablets, Laptops, Phones}
  {
    assert Rules[0] == Rule(["tablet", "ipad"], Tablets);
    assert Rules[1] == Rule(["laptop", "computer"], Laptops);
    assert Rules[2] == Rule(["phone", "mobile", "smartphone"], Phones);
    assert AnyIn(m, Rules[2].keywords);
    if AnyIn(m, Rules[0].keywords) {
      FirstMatchAt(Rules, m, 0);
    } else if AnyIn(m, Rules[1].keywords) {
      FirstMatchAt(Rules, m, 1);
    } else {
      FirstMatchAt(Rules, m, 2);
    }
  }

  /** ASCII `toLowerCase` of one character. */
  function LowerChar(c: char): char
  {
    if 'A' <= c <= 'Z' then (c as int + 32) as char else c
  }

  /** `toLowerCase`, on ASCII letters. */
  function ToLower(s: string): (r: string)
    ensures |r| == |s|
  {
    if |s| == 0 then [] else ToLower(s[..|s| - 1]) + [LowerChar(s[|s| - 1])]
  }

  /** Lower-casing twice is lower-casing once. */
  lemma {:induction false} ToLowerIdempotent(s: string)
    ensures ToLower(ToLower(s)) == ToLower(s)
  {
    if |s| > 0 {
      var front := ToLower(s[..|s| - 1]);
      ToLowerIdempotent(s[..|s| - 1]);
      assert (front + [LowerChar(s[|s| - 1])])[..|s| - 1] == front;
    }
  }

  /** `message.length`: characters outside the Basic Multilingual Plane count twice. */
  function Utf16Length(s: string): (n: nat)
    ensures |s| <= n <= 2 * |s|
  {
    if |s| == 0 then 0 else Utf16Length(s[..|s| - 1]) + (if s[|s| - 1] as int > 0xFFFF then 2 else 1)
  }

  /** Lower-casing keeps the UTF-16 length. */
  lemma {:induction false} ToLowerKeepsLength(s: string)
    ensures Utf16Length(ToLower(s)) == Utf16Length(s)
  {
    if |s| > 0 {
      var front := ToLower(s[..|s| - 1]);
      ToLowerKeepsLength(s[..|s| - 1]);
      assert (front + [LowerChar(s[|s| - 1])])[..|s| - 1] == front;
    }
  }

  /** `POST /chat`: the status-400 checks, then the cascade on the lower-cased message. */
  function Respond(body: Body): ChatResponse
  {
    match body
    case Absent => Rejected(InvalidFormat)
    case NonString => Rejected(InvalidFormat)
    case Text(s) =>
      if |s| == 0 then Rejected(InvalidFormat)
      else if Utf16Length(s) > MaxMessageLength then Rejected(TooLong)
      else Answer(Classify(ToLower(s)))
  }

  /**
   * A missing, non-string or empty message is refused as malformed, one over
   * 1000 code units as too long; every other message is answered.
   */
  lemma RespondValidation(body: Body)
    ensures Respond(body) == Rejected(InvalidFormat) <==> body.Absent? || body.NonString? || body == Text("")
    ensures Respond(body) == Rejected(TooLong) <==> body.Text? && Utf16Length(body.s) > MaxMessageLength
    ensures Respond(body).Answer? <==> body.Text? && 0 < |body.s| && Utf16Length(body.s) <= MaxMessageLength
  {
    if body.Text? && Utf16Length(body.s) > MaxMessageLength {
      assert |body.s| > 0;
    }
  }

  /** Matching ignores ASCII case: messages that agree after lower-casing get the same response. */
  lemma RespondIgnoresCase(s: string, t: string)
    requires ToLower(s) == ToLower(t)
    ensures Respond(Text(s)) == Respond(Text(t))
  {
    ToLowerKeepsLength(s);
    ToLowerKeepsLength(t);
  }

  /** The answer to a message is the answer to its lower-cased form. */
  lemma RespondToLower(s: string)
    ensures Respond(Text(s)) == Respond(Text(ToLower(s)))
  {
    ToLowerIdempotent(s);
    RespondIgnoresCase(s, ToLower(s));
  }

  /** The English text of each reply. */
  function ReplyText(r: Reply): string
  {
    match r
    case Tablets => "Our tablets are perfect for work and entertainment! The iPad Pro offers excellent performance for creative tasks, while standard tablets are great for media consumption. Need help choosing the right size or storage?"
    case Laptops => "Our laptops range from budget-friendly options to high-performance machines. For work: business laptops with long battery life. For gaming: powerful graphics cards. For students: lightweight and affordable. What's your main use case?"
    case Phones => "We have smartphones for every need! Premium flagships with best cameras, mid-range phones with great value, and budget options. Are you looking for specific features like camera quality, battery life, or gaming performance?"
    case Audio => "Our audio products include wireless earbuds, over-ear headphones, and gaming headsets. For music: noise-cancelling options. For calls: clear microphones. For gaming: surround sound. What's your priority?"
    case Accessories => "We have all the accessories you need! Phone cases, laptop bags, chargers, cables, stands, and more. What device are you looking to accessorize?"
    case Comparison => "I can help compare our products! Tell me which specific items you're considering, and I'll highlight the key differences in features, price, and performance to help you decide."
    case Pricing => "Our products are competitively priced! We have options for every budget. Check our current deals and discounts. Need recommendations within a specific price range? Just let me know your budget!"
    case Availability => "Most of our products are in stock and ready to ship! You can see real-time availability on each product page. Need something urgently? I can help you find similar in-stock alternatives."
    case Specifications => "I can help you understand product specifications! Each product page has detailed specs, but feel free to ask about specific features like battery life, storage, camera quality, or performance."
    case Returns => "Returns accepted within 30 days with receipt. Free return shipping on all orders!"
    case Shipping => "Free shipping on orders over $50. Express delivery available. Standard shipping: 3-5 business days."
    case Payment => "We accept all major credit cards, PayPal, Apple Pay, and Buy Now Pay Later options."
    case Warranty => "1-year manufacturer warranty on all products. Extended warranties available at checkout."
    case Tracking => "Track your order in the \"My Orders\" section or use the tracking number we emailed you."
    case Cancellation => "Orders can be cancelled within 1 hour of placement. Contact us immediately for assistance!"
    case Greeting => "Hi! I'm your ShopMate assistant. I can help with product recommendations, comparisons, and shopping questions!"
    case Help => "I can help with: product recommendations, comparisons, specifications, pricing, shipping, returns, and order tracking. What do you need?"
    case Support => "Our customer support team is here to help! For complex questions, email us at support@shopmate.com"
    case TopRated => "Our top-rated products: \U{1F4F1} Smartphone X12 Pro for photography, \U{1F4BB} UltraBook Pro 16 for productivity, \U{1F3A7} SoundWave Elite for audio lovers, \U{231A} FitTech Pro for fitness, and \U{1F4F1} SlimTab Ultra for creativity. What's your priority?"
    case NewArrivals => "Check out our newest arrivals! All our products feature the latest technology. The Smartphone X12 Pro has the newest camera system, and UltraBook Pro 16 has the latest 12th Gen processor. What type of latest tech interests you?"
    case Gifts => "Perfect gifts for tech lovers! \U{1F381} For him: UltraBook Pro or Smartphone X12 Pro. For her: SlimTab Ultra or SoundWave Elite headphones. For fitness enthusiasts: FitTech Pro Smartwatch. What's your budget range?"
    case WorkPicks => "For work and business: UltraBook Pro 16 offers 12-hour battery and powerful performance. Smartphone X12 Pro for professional photography. SoundWave Elite for clear calls. Need specific work requirements?"
    case Fallback => "I can help with product recommendations, comparisons, pricing, shipping, and returns. Try asking \"best laptop for work\" or \"gift ideas\". For detailed technical questions, email support@shopmate.com - we'll respond within 24 hours!"
  }

  /** The text of each 400 response. */
  function ErrorText(e: ChatError): string
  {
    match e
    case InvalidFormat => "Invalid message format"
    case TooLong => "Message too long (maximum 1000 characters)"
  }

  /** One suggested accessory; the price is in cents. */
  datatype Recommendation = Recommendation(id: int, name: string, priceCents: int)

  /** `GET /recommendations/:productId`. */
  function Recommendations(productId: string): (r: seq<Recommendation>)
    ensures |r| == 3 && forall i :: 0 <= i < 3 ==> r[i].id == i + 1
  {
    [Recommendation(1, "Wireless Mouse", 2999),
     Recommendation(2, "USB-C Hub", 4999),
     Recommendation(3, "Laptop Stand", 3999)]
  }

  /** The list does not depend on the product asked about. */
  lemma RecommendationsIgnoreProduct(a: string, b: string)
    ensures Recommendations(a) == Recommendations(b)
  {
  }
}
