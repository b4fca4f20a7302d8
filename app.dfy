/** The application state: the list of conditions, the view on screen and the condition being
  * edited, with the handlers the three views call, and the thirty conditions the list starts with. */
module ConditionStore {
  import opened Wrappers
  import opened Text
  import opened Types
  import opened ClauseSyntax
  import opened ConditionDashboard

  /** `currentView`. */
  datatype View = Dashboard | List | Editor

  /** Every record has its own id. */
  predicate UniqueIds(cs: seq<Condition>)
  {
    forall i, j :: 0 <= i < j < |cs| ==> cs[i].id != cs[j].id
  }

  predicate HasId(cs: seq<Condition>, id: string)
  {
    exists i :: 0 <= i < |cs| && cs[i].id == id
  }

  /** `prev.filter(c => c.id !== id)`: the records with another id, in their order. */
  function WithoutId(cs: seq<Condition>, id: string): (r: seq<Condition>)
    ensures |r| <= |cs|
    ensures forall c :: c in r <==> c in cs && c.id != id
  {
    var keep := (c: Condition) => c.id != id;
    forall c ensures c in Select(cs, keep) <==> c in cs && c.id != id {
      SelectMembers(cs, keep, c);
    }
    Select(cs, keep)
  }

  /** After deleting, no record has the id. */
  lemma WithoutIdAbsent(cs: seq<Condition>, id: string)
    ensures !HasId(WithoutId(cs, id), id)
  {
    var r := WithoutId(cs, id);
    forall i | 0 <= i < |r| ensures r[i].id != id {
      assert r[i] in r;
    }
  }

  lemma HasIdTail(cs: seq<Condition>, id: string)
    requires cs != []
    ensures HasId(cs, id) <==> cs[0].id == id || HasId(cs[1..], id)
  {
    if HasId(cs, id) && cs[0].id != id {
      var i :| 0 <= i < |cs| && cs[i].id == id;
      assert cs[1..][i - 1].id == id;
    }
    if HasId(cs[1..], id) {
      var i :| 0 <= i < |cs[1..]| && cs[1..][i].id == id;
      assert cs[i + 1].id == id;
    }
  }

  /** The list gets shorter exactly when some record had the id. */
  lemma {:induction false} WithoutIdShrinks(cs: seq<Condition>, id: string)
    ensures HasId(cs, id) <==> |WithoutId(cs, id)| < |cs|
  {
    if cs != [] {
      WithoutIdShrinks(cs[1..], id);
      HasIdTail(cs, id);
      var h := if cs[0].id != id then [cs[0]] else [];
      assert WithoutId(cs, id) == h + WithoutId(cs[1..], id);
    }
  }

  lemma UniqueCons(c: Condition, t: seq<Condition>)
    requires UniqueIds(t) && forall j :: 0 <= j < |t| ==> t[j].id != c.id
    ensures UniqueIds([c] + t)
  {
    forall i, j | 0 <= i < j < |[c] + t| ensures ([c] + t)[i].id != ([c] + t)[j].id {
      assert ([c] + t)[j] == t[j - 1];
      if i > 0 { assert ([c] + t)[i] == t[i - 1]; }
    }
  }

  /** Deleting keeps the remaining ids unique. */
  lemma {:induction false} WithoutIdUnique(cs: seq<Condition>, id: string)
    requires UniqueIds(cs)
    ensures UniqueIds(WithoutId(cs, id))
  {
    if cs != [] {
      assert UniqueIds(cs[1..]) by {
        forall i, j | 0 <= i < j < |cs[1..]| ensures cs[1..][i].id != cs[1..][j].id {
          assert cs[1..][i] == cs[i + 1] && cs[1..][j] == cs[j + 1];
        }
      }
      WithoutIdUnique(cs[1..], id);
      var t := WithoutId(cs[1..], id);
      var h := if cs[0].id != id then [cs[0]] else [];
      assert WithoutId(cs, id) == h + t;
      forall j | 0 <= j < |t| ensures t[j].id != cs[0].id {
        assert t[j] in cs[1..];
        var k :| 0 <= k < |cs[1..]| && cs[1..][k] == t[j];
        assert cs[k + 1] == t[j];
      }
      if h == [] {
        assert h + t == t;
      } else {
        UniqueCons(cs[0], t);
      }
    }
  }

  /** `prev.map(c => c.id === condition.id ? condition : c)`. */
  function ReplaceById(cs: seq<Condition>, c: Condition): (r: seq<Condition>)
    ensures |r| == |cs|
    ensures forall i :: 0 <= i < |r| ==> r[i] == (if cs[i].id == c.id then c else cs[i])
  {
    if cs == [] then [] else [if cs[0].id == c.id then c else cs[0]] + ReplaceById(cs[1..], c)
  }

  /** Replacing keeps the ids where they were, and so their uniqueness; a record whose id is in no
    * entry changes nothing, and with unique ids the one record with the id is the one replaced. */
  lemma ReplaceByIdFacts(cs: seq<Condition>, c: Condition)
    ensures forall i :: 0 <= i < |cs| ==> ReplaceById(cs, c)[i].id == cs[i].id
    ensures UniqueIds(cs) ==> UniqueIds(ReplaceById(cs, c))
    ensures !HasId(cs, c.id) ==> ReplaceById(cs, c) == cs
    ensures forall k :: 0 <= k < |cs| && UniqueIds(cs) && cs[k].id == c.id ==> ReplaceById(cs, c) == cs[k := c]
  {
  }

  /** The new list after `handleSaveCondition`: the edited record replaced by id, or the new one
    * appended under the id made from the clock reading `now` (`Date.now().toString()`). */
  function Saved(cs: seq<Condition>, editing: Option<Condition>, c: Condition, now: nat): (r: seq<Condition>)
    ensures editing.Some? ==> r == ReplaceById(cs, c)
    ensures editing.None? ==> |r| == |cs| + 1 && r[..|cs|] == cs && r[|cs|] == c.(id := NatToString(now))
  {
    if editing.Some? then ReplaceById(cs, c) else cs + [c.(id := NatToString(now))]
  }

  /** Saving keeps the ids unique, as long as a new record's clock reading gives an unused id. */
  lemma SavedUnique(cs: seq<Condition>, editing: Option<Condition>, c: Condition, now: nat)
    requires UniqueIds(cs)
    requires editing.None? ==> !HasId(cs, NatToString(now))
    ensures UniqueIds(Saved(cs, editing, c, now))
  {
    ReplaceByIdFacts(cs, c);
    if editing.None? {
      var r := Saved(cs, editing, c, now);
      forall i, j | 0 <= i < j < |r| ensures r[i].id != r[j].id {
        if j == |cs| {
          assert r[i] == cs[i];
        } else {
          assert r[i] == cs[i] && r[j] == cs[j];
        }
      }
    }
  }

  /** Every `setState` of the component as a field update. */
  class App {
    var conditions: seq<Condition>
    var view: View
    var editing: Option<Condition>

    /** `useState(sampleConditions)` and the other two initial states: the list view and nothing
      * being edited. The application passes `Seeds` as `initial`. */
    constructor (initial: seq<Condition>)
      ensures conditions == initial && view == List && editing == None
    {
      conditions := initial;
      view := List;
      editing := None;
    }

    /** `handleCreateCondition`. */
    method Create()
      modifies this
      ensures editing == None && view == Editor && conditions == old(conditions)
    {
      editing := None;
      view := Editor;
    }

    /** `handleEditCondition`. */
    method Edit(c: Condition)
      modifies this
      ensures editing == Some(c) && view == Editor && conditions == old(conditions)
    {
      editing := Some(c);
      view := Editor;
    }

    /** `handleDeleteCondition`: the view and the edited condition stay. */
    method Delete(id: string)
      modifies this
      ensures conditions == WithoutId(old(conditions), id)
      ensures view == old(view) && editing == old(editing)
    {
      conditions := WithoutId(conditions, id);
    }

    /** `handleSaveCondition`, with the clock reading as a parameter: then to the dashboard, with
      * nothing being edited. */
    method Save(c: Condition, now: nat)
      modifies this
      ensures conditions == Saved(old(conditions), old(editing), c, now)
      ensures view == Dashboard && editing == None
    {
      conditions := Saved(conditions, editing, c, now);
      view := Dashboard;
      editing := None;
    }

    /** `handleBackToDashboard`: the list view (despite the name), with nothing being edited. */
    method Back()
      modifies this
      ensures view == List && editing == None && conditions == old(conditions)
    {
      view := List;
      editing := None;
    }
  }

  // ---- the sample conditions ----

  /** The conditions the application starts with (`sampleConditions`), in their order. */
  const Seeds: seq<Condition> := [
    Seed1, Seed2, Seed3, Seed4, Seed5, Seed6, Seed7, Seed8, Seed9, Seed10,
    Seed11, Seed12, Seed13, Seed14, Seed15, Seed16, Seed17, Seed18, Seed19, Seed20,
    Seed21, Seed22, Seed23, Seed24, Seed25, Seed26, Seed27, Seed28, Seed29, Seed30
  ]

  /** A one-clause expression `field == 'value'`, the shape of the samples at App.tsx:13 and
    * App.tsx:159. */
  function Clause(field: string, value: string): string
  {
    field + " == '" + value + "'"
  }

  /** A two-clause expression `( a ) && ( b )`, the shape of the samples from App.tsx:518 on. */
  function BothClauses(field: string, value: string, field2: string, value2: string): string
  {
    "( " + Clause(field, value) + " ) && ( " + Clause(field2, value2) + " )"
  }

  /** A field name that the simple pattern and trim take as a whole (inner blanks allowed). */
  predicate TrimmedField(f: string)
  {
    f != [] && NoOperatorChar(f) && !IsSpace(f[0]) && !IsSpace(f[|f| - 1])
  }

  lemma NoOperatorCharConcat(a: string, b: string)
    requires NoOperatorChar(a) && NoOperatorChar(b)
    ensures NoOperatorChar(a + b)
  {
    forall i | 0 <= i < |a + b| ensures !IsOperatorChar((a + b)[i]) {
      if i < |a| { assert (a + b)[i] == a[i]; } else { assert (a + b)[i] == b[i - |a|]; }
    }
  }

  lemma ClauseLayout(f: string, v: string)
    ensures Clause(f, v) == (f + " ") + "==" + " " + "'" + v + "'" + ""
  {
  }

  /** A one-clause expression is read back as its field, `==` and its value. */
  lemma ClauseHeadline(f: string, v: string)
    requires TrimmedField(f) && v != [] && '\'' !in v
    ensures ParseExpression(Clause(f, v)) == Parsed(f, "==", v)
  {
    ClauseLayout(f, v);
    NoOperatorCharConcat(f, " ");
    TrimFrame([], f, " ");
    assert [] + f + " " == f + " ";
    SimpleParse(f + " ", "==", " ", v, "");
  }

  /** A two-clause expression is read as its first clause, the opening parenthesis joining the
    * field: the second clause never reaches the headline. */
  lemma BothClausesHeadline(f: string, v: string, g: string, w: string)
    requires TrimmedField(f) && v != [] && '\'' !in v
    ensures ParseExpression(BothClauses(f, v, g, w)) == Parsed("( " + f, "==", v)
  {
    var p := "( " + f;
    var rest := " ) && ( " + Clause(g, w) + " )";
    assert BothClauses(f, v, g, w) == (p + " ") + "==" + " " + "'" + v + "'" + rest;
    NoOperatorCharConcat("( ", f);
    NoOperatorCharConcat(p, " ");
    TrimFrame([], p, " ");
    assert [] + p + " " == p + " ";
    SimpleParse(p + " ", "==", " ", v, rest);
  }

  /** The part samples: the whole part id is the headline value. */
  lemma PartHeadline(v: string)
    requires v != [] && '\'' !in v
    ensures ParseExpression(Clause("applies_to_part", v)) == Parsed("applies_to_part", "==", v)
  {
    ClauseHeadline("applies_to_part", v);
  }

  /** The field of the first category level. */
  const Level1: string := "custom_fields.issue_category_l1"

  /** The two-clause samples: the headline field is `( ` followed by the level-one field, which is
    * in no label table, and the level-two clause is dropped. */
  lemma TwoClauseHeadline(v: string, w: string)
    requires v != [] && '\'' !in v
    ensures ParseExpression(BothClauses(Level1, v, "custom_fields.issue_category_l2", w)) ==
      Parsed("( " + Level1, "==", v)
  {
    assert TrimmedField(Level1);
    BothClausesHeadline(Level1, v, "custom_fields.issue_category_l2", w);
  }

  /** App.tsx:11. */
  const Seed1: Condition := Condition("1", "ONDC Product Condition",
    "applies_to_part == 'don:core:dvrv-in-1:devo/2gitAZKDaa:product/6'",
    [Effect([
      "Buyer end cancellation", "Logistic end - Delivery issues", "ONDC - Behavioural issues",
      "ONDC - General enquiry", "ONDC - No Content", "ONDC - Refund / Return Issues",
      "ONDC - Seller Support", "ONDC - Seller end - Quality & Service Issues", "ONDC - Technical issue"
    ], ["custom_fields.issue_category_l1"], true, None, None, None)])

  /** App.tsx:36. */
  const Seed2: Condition := Condition("2", "Bus Capability Condition",
    "applies_to_part == 'don:core:dvrv-in-1:devo/2gitAZKDaa:capability/15'",
    [Effect([
      "Bus - Blank/Missed Call", "Bus - Bus Type Issue", "Bus - City Mapping", "Bus - Driver details",
      "Bus - GST Releated Queries", "Bus - General Information", "Bus - General Query",
      "Bus - I have an issue related to promocode/cashback", "Bus - I have an issue with booking",
      "Bus - I have not received Payment confirmation", "Bus - I have not received booking confirmation",
      "Bus - I have not received the ticket", "Bus - I want information regarding upcoming travel",
      "Bus - I want to cancel my booking", "Bus - I would like a refund",
      "Bus - Issue with booking travel tickets using UPI", "Bus - Issue with booking voucher",
      "Bus - Non travel vertical issue", "Bus - Not able to book a bus", "Bus - Pre Booking issues",
      "Bus - There may be an issue with my ticket", "Cancel my booking", "Default LLM L1",
      "Journey convenience guarantee", "Merchant Query - Travel", "On time guarantee", "Service guarantee"
    ], ["custom_fields.issue_category_l1"], true, None, None, None)])

  /** App.tsx:77. */
  const Seed3: Condition := Condition("3", "Flights Capability Condition",
    "applies_to_part == 'don:core:dvrv-in-1:devo/2gitAZKDaa:capability/14'",
    [Effect([
      "Flights - Adding Meal & Baggage", "Flights - Blank/Missed call", "Flights - Corporate Booking",
      "Flights - Direct - GDS Cancellation Queue", "Flights - GST Releated Queries",
      "Flights - General query", "Flights - GoAir Issue",
      "Flights - I have a FREE Cancellation related query",
      "Flights - I have a travel Insurance related query",
      "Flights - I have an issue related to promo code/cashback",
      "Flights - I have an issue related to promocode/cashback",
      "Flights - I have not received booking confirmation/ticket",
      "Flights - I need some additional information",
      "Flights - I want a refund under the Best Price Guaranteed program",
      "Flights - I want to cancel my booking", "Flights - I want to correct the traveller details",
      "Flights - I want to make changes to my booking", "Flights - I would like a refund",
      "Flights - I would like to give feedback about my booking experience on paytm",
      "Flights - I am having trouble booking a flight", "Flights - Instant Refund - Delayed Cancellation",
      "Flights - Issue with booking travel tickets using UPI", "Flights - Issue with ticket received",
      "Flights - Manual Cancellation Queue", "Flights - My problem is not listed here",
      "Flights - Non travel vertical issue", "Flights - Pre-Booking of Flight", "Flights - Proactive Refund",
      "Flights- Tech Issues", "Default LLM L1"
    ], ["custom_fields.issue_category_l1"], true, None, None, None)])

  /** App.tsx:121. */
  const Seed4: Condition := Condition("4", "Train Capability Condition",
    "applies_to_part == 'don:core:dvrv-in-1:devo/2gitAZKDaa:capability/16'",
    [Effect([
      "Train - Blank/Missed call", "Train - GST Related Queries", "Train - General Queries",
      "Train - I have a query related to FREE Cancellation",
      "Train - I have issue related to my booked train ticket", "Train - I have issue with Food order",
      "Train - I want to know about Cancel Protect",
      "Train - I want to know the cancellation/modification charges",
      "Train - Issue with booking travel tickets using UPI", "Train - Issue with booking voucher",
      "Train - Lesser refund received", "Train - Modify or Cancel booking", "Train - My booking details",
      "Train - Non travel vertical issue", "Train - Offers & Promos", "Train - Payments and Refunds",
      "Train - TATKAL tickets", "Train - TDR", "Trains - Pre Booking issues", "Default LLM L1"
    ], ["custom_fields.issue_category_l1"], true, None, None, None)])

  /** App.tsx:157. */
  const Seed5: Condition := Condition("5", "Bus Blank/Missed Call L1",
    "custom_fields.issue_category_l1 == 'Bus - Blank/Missed Call'",
    [Effect([
      "Bus: Blank/Missed Call", "Default LLM L2"
    ], ["custom_fields.issue_category_l2"], true, None, None, None)])

  /** App.tsx:173. */
  const Seed6: Condition := Condition("6", "Bus Type Issue L1",
    "custom_fields.issue_category_l1 == 'Bus - Bus Type Issue'",
    [Effect([
      "Others", "Default LLM L2"
    ], ["custom_fields.issue_category_l2"], true, None, None, None)])

  /** App.tsx:189. */
  const Seed7: Condition := Condition("7", "Bus City Mapping L1",
    "custom_fields.issue_category_l1 == 'Bus - City Mapping'",
    [Effect([
      "Default LLM L2", "Inventory already live", "Missing Mappings", "Missing paytm Cities",
      "Not available from provider", "Others", "RTC Inventory"
    ], ["custom_fields.issue_category_l2"], true, None, None, None)])

  /** App.tsx:210. */
  const Seed8: Condition := Condition("8", "Bus Driver Details L1",
    "custom_fields.issue_category_l1 == 'Bus - Driver details'",
    [Effect([
      "Information Shared", "Default LLM L2"
    ], ["custom_fields.issue_category_l2"], true, None, None, None)])

  /** App.tsx:226. */
  const Seed9: Condition := Condition("9", "Bus General Information L1",
    "custom_fields.issue_category_l1 == 'Bus - General Information'",
    [Effect([
      "Bus - I want information regarding upcoming travel", "Download Ticket", "How to book the ticket",
      "I want information on cancellation policies", "I want information on modification policies",
      "I want information on promo codes and cashback offers running right now", "Default LLM L2"
    ], ["custom_fields.issue_category_l2"], true, None, None, None)])

  /** App.tsx:247. */
  const Seed10: Condition := Condition("10", "Bus General Query L1",
    "custom_fields.issue_category_l1 == 'Bus - General Query'",
    [Effect([
      "Default LLM L2", "How to book the ticket", "Voucher required", "Want to know about promocode offers"
    ], ["custom_fields.issue_category_l2"], true, None, None, None)])

  /** App.tsx:265. */
  const Seed11: Condition := Condition("11", "Bus GST Related Queries L1",
    "custom_fields.issue_category_l1 == 'Bus - GST Releated Queries'",
    [Effect([
      "GST Invoice", "Default LLM L2"
    ], ["custom_fields.issue_category_l2"], true, None, None, None)])

  /** App.tsx:281. */
  const Seed12: Condition := Condition("12", "Bus Promocode/Cashback Issue L1",
    "custom_fields.issue_category_l1 == 'Bus - I have an issue related to promocode/cashback'",
    [Effect([
      "I got less than expected cashback", "I have not yet received cashback for this booking",
      "I am not able to apply promo code", "Default LLM L2"
    ], ["custom_fields.issue_category_l2"], true, None, None, None)])

  /** App.tsx:299. */
  const Seed13: Condition := Condition("13", "Bus Booking Issue L1",
    "custom_fields.issue_category_l1 == 'Bus - I have an issue with booking'",
    [Effect([
      "Booking is successful and notification sent is successful",
      "Booking is successful but ticket not received", "I am not able to find a route",
      "Money deducted but have not got booking confirmation", "My problem is not listed here",
      "Default LLM L2"
    ], ["custom_fields.issue_category_l2"], true, None, None, None)])

  /** App.tsx:319. */
  const Seed14: Condition := Condition("14", "Bus Booking Confirmation Missing L1",
    "custom_fields.issue_category_l1 == 'Bus - I have not received booking confirmation'",
    [Effect([
      "Booking is successful and notification sent is successful",
      "Booking is successful but ticket not received", "I need help downloading my ticket",
      "Money deducted but have not got booking confirmation", "My problem is not listed here",
      "Default LLM L2"
    ], ["custom_fields.issue_category_l2"], true, None, None, None)])

  /** App.tsx:339. */
  const Seed15: Condition := Condition("15", "Bus Payment Confirmation Missing L1",
    "custom_fields.issue_category_l1 == 'Bus - I have not received Payment confirmation'",
    [Effect([
      "Money deducted but have not got booking confirmation", "Default LLM L2"
    ], ["custom_fields.issue_category_l2"], true, None, None, None)])

  /** App.tsx:355. */
  const Seed16: Condition := Condition("16", "Bus Ticket Not Received L1",
    "custom_fields.issue_category_l1 == 'Bus - I have not received the ticket'",
    [Effect([
      "Booking is successful but ticket not received", "I need help downloading my ticket", "Default LLM L2"
    ], ["custom_fields.issue_category_l2"], true, None, None, None)])

  /** App.tsx:372. */
  const Seed17: Condition := Condition("17", "Bus Travel Information L1",
    "custom_fields.issue_category_l1 == 'Bus - I want information regarding upcoming travel'",
    [Effect([
      "Boarding point clarification", "Bus Type query", "Bus timing information",
      "I want bus operator contact details", "I want the bus vehicle number", "Route enquiry",
      "Seat number query", "Where is my Bus", "Default LLM L2"
    ], ["custom_fields.issue_category_l2"], true, None, None, None)])

  /** App.tsx:395. */
  const Seed18: Condition := Condition("18", "Bus Cancellation Request L1",
    "custom_fields.issue_category_l1 == 'Bus - I want to cancel my booking'",
    [Effect([
      "Default LLM L2", "I want to cancel my ticket partially", "I want to modify my ticket",
      "There is a technical error on my ticket", "Unable to cancel my ticket"
    ], ["custom_fields.issue_category_l2"], true, None, None, None)])

  /** App.tsx:414. */
  const Seed19: Condition := Condition("19", "Bus Refund Request L1",
    "custom_fields.issue_category_l1 == 'Bus - I would like a refund'",
    [Effect([
      "Bus details were not shared before journey", "Driver denied me entry to bus",
      "I bought insurance by mistake", "I cancelled my ticket directly with the bus operator",
      "I did not take this bus", "I have a dropping point issue",
      "I still haven\U{201A}\U{00C4}\U{00F4}t got refund for my bus ticket", "Issue with APSRTC/TSRTC",
      "My Bus type changed", "My bus arrived late", "My bus broke down mid - journey",
      "My bus departed early", "My bus got cancelled", "Operator changed the boarding point",
      "Service Cancellation By Operator", "Service provided by Operator was very poor", "Default LLM L2"
    ], ["custom_fields.issue_category_l2"], true, None, None, None)])

  /** App.tsx:445. */
  const Seed20: Condition := Condition("20", "Bus UPI Booking Issue L1",
    "custom_fields.issue_category_l1 == 'Bus - Issue with booking travel tickets using UPI'",
    [Effect([
      "I was charged more than the transaction amount", "Issue with my refunds",
      "Payment done but tickets not booked", "Default LLM L2"
    ], ["custom_fields.issue_category_l2"], true, None, None, None)])

  /** App.tsx:463. */
  const Seed21: Condition := Condition("21", "Bus Booking Voucher Issue L1",
    "custom_fields.issue_category_l1 == 'Bus - Issue with booking voucher'",
    [Effect([
      "GST Related", "Invoice Required", "Default LLM L2"
    ], ["custom_fields.issue_category_l2"], true, None, None, None)])

  /** App.tsx:480. */
  const Seed22: Condition := Condition("22", "Bus Non-Travel Issue L1",
    "custom_fields.issue_category_l1 == 'Bus - Non travel vertical issue'",
    [Effect([
      "My problem is not listed here", "Default LLM L2"
    ], ["custom_fields.issue_category_l2"], true, None, None, None)])

  /** App.tsx:496. */
  const Seed23: Condition := Condition("23", "Bus Booking Problem L1",
    "custom_fields.issue_category_l1 == 'Bus - Not able to book a bus'",
    [Effect([
      "Boarding Point/Dropping point issue", "I am having trouble paying for my Bus Ticket",
      "Incorrect Seat Booking", "Default LLM L2"
    ], ["custom_fields.issue_category_l2"], true, None, None, None)])

  /** App.tsx:516. */
  const Seed24: Condition := Condition("24", "Bus Promocode Less Cashback L2->L3",
    "( custom_fields.issue_category_l1 == 'Bus - I have an issue related to promocode/cashback' ) && ( custom_fields.issue_category_l2 == 'I got less than expected cashback' )",
    [Effect([
      "Cashback pending_KYC not done", "Correct cashback processed", "Customer was unclear about promo T&C",
      "Delay in processing cashback", "Not Eligible for cashback", "Default LLM L3"
    ], ["custom_fields.issue_category_l3"], true, None, None, None)])

  /** App.tsx:536. */
  const Seed25: Condition := Condition("25", "Bus Promocode No Cashback L2->L3",
    "( custom_fields.issue_category_l1 == 'Bus - I have an issue related to promocode/cashback' ) && ( custom_fields.issue_category_l2 == 'I have not yet received cashback for this booking' )",
    [Effect([
      "Cashback pending_KYC not done", "Correct cashback processed", "Customer was unclear about promo T&C",
      "Delay in processing cashback", "Not Eligible for cashback", "Default LLM L3"
    ], ["custom_fields.issue_category_l3"], true, None, None, None)])

  /** App.tsx:556. */
  const Seed26: Condition := Condition("26", "Bus Promocode Apply Issue L2->L3",
    "( custom_fields.issue_category_l1 == 'Bus - I have an issue related to promocode/cashback' ) && ( custom_fields.issue_category_l2 == 'I am not able to apply promo code' )",
    [Effect([
      "Promo code applicable only for New users", "Promo code limit exceeded",
      "Promo code stuck due to previous Unauthorised/Failed txn", "Tech Issue",
      "Terms and Conditions not met", "Default LLM L3"
    ], ["custom_fields.issue_category_l3"], true, None, None, None)])

  /** App.tsx:576. */
  const Seed27: Condition := Condition("27", "Default LLM L1->L2->L3",
    "( custom_fields.issue_category_l1 == 'Default LLM L1' ) && ( custom_fields.issue_category_l2 == 'Default LLM L2' )",
    [Effect([
      "Default LLM L3"
    ], ["custom_fields.issue_category_l3"], true, None, None, None)])

  /** App.tsx:591. */
  const Seed28: Condition := Condition("28", "Journey Convenience Guarantee - Bus Breakdown",
    "( custom_fields.issue_category_l1 == 'Journey convenience guarantee' ) && ( custom_fields.issue_category_l2 == 'Bus broke down mid journey' )",
    [Effect([
      "Alternate Provided - No Refund", "Alternate Provided - with Refund",
      "Alternate not Provided - Full Refund", "Under Check", "Default LLM L3"
    ], ["custom_fields.issue_category_l3"], true, None, None, None)])

  /** App.tsx:610. */
  const Seed29: Condition := Condition("29", "Cancel My Booking - Window Over",
    "( custom_fields.issue_category_l1 == 'Cancel my booking' ) && ( custom_fields.issue_category_l2 == 'Cancellation window is over' )",
    [Effect([
      "no issue found", "resolved", "Default LLM L3"
    ], ["custom_fields.issue_category_l3"], true, None, None, None)])

  /** App.tsx:627. */
  const Seed30: Condition := Condition("30", "Merchant Query - Travel Agent",
    "( custom_fields.issue_category_l1 == 'Merchant Query - Travel' ) && ( custom_fields.issue_category_l2 == 'How to become travel agent' )",
    [Effect([
      "Information Shared", "Under Check", "Default LLM L3"
    ], ["custom_fields.issue_category_l3"], true, None, None, None)])
}
