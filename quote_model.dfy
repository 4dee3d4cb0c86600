/** The Quote record: its lines, its status enum and the pre-save hook that
    folds the lines into `total`. */
module QuoteModel {
  import opened Common
  import Text

  /** The `status` enum; new quotes start `Pending`. */
  datatype Status = Pending | Approved | Rejected | Expired

  const DefaultStatus: Status := Pending

  function StatusLabel(s: Status): string
  {
    match s
    case Pending => "pending"
    case Approved => "approved"
    case Rejected => "rejected"
    case Expired => "expired"
  }

  /** Membership in ['pending', 'approved', 'rejected', 'expired']: the enum
      of the schema and the allow-list of `updateQuoteStatus`. */
  function ParseStatus(s: string): (r: Option<Status>)
    ensures r.Some? ==> StatusLabel(r.value) == s
    ensures r.None? ==> forall st :: StatusLabel(st) != s
  {
    if s == "pending" then Some(Pending)
    else if s == "approved" then Some(Approved)
    else if s == "rejected" then Some(Rejected)
    else if s == "expired" then Some(Expired)
    else None
  }

  lemma StatusRoundTrip(s: Status)
    ensures ParseStatus(StatusLabel(s)) == Some(s)
  {
  }

  /** One entry of `services`: a service reference, how many, the unit price
      and a discount in percent. */
  datatype QuoteLine = QuoteLine(service: Id, quantity: real, price: real, discount: real)

  /** A line as the schema stores it: quantity defaults to 1, discount to 0. */
  function NewLine(service: Id, quantity: Option<real>, price: real, discount: Option<real>): (l: QuoteLine)
    ensures l.service == service && l.price == price
    ensures l.quantity == (if quantity.Some? then quantity.value else 1.0)
    ensures l.discount == (if discount.Some? then discount.value else 0.0)
  {
    QuoteLine(service,
              if quantity.Some? then quantity.value else 1.0,
              price,
              if discount.Some? then discount.value else 0.0)
  }

  /** The schema's bounds on a line. */
  predicate ValidLine(l: QuoteLine)
  {
    l.quantity >= 1.0 && l.price >= 0.0 && 0.0 <= l.discount <= 100.0
  }

  datatype Quote = Quote(
    id: Id,
    customerId: Option<Id>,
    customerName: Option<string>,
    customerEmail: Option<string>,
    services: seq<QuoteLine>,
    status: Status,
    total: Option<real>,
    validUntil: Millis,
    notes: Option<string>)

  /** A non-empty string, which is what a `required` string field accepts. */
  predicate Present(s: Option<string>)
  {
    s.Some? && s.value != []
  }

  /** What the schema demands of a stored quote: customer name and e-mail,
      a total of at least 0, and every line within its bounds. */
  predicate ValidQuote(q: Quote)
  {
    && Present(q.customerName)
    && Present(q.customerEmail)
    && q.total.Some? && q.total.value >= 0.0
    && forall i :: 0 <= i < |q.services| ==> ValidLine(q.services[i])
  }

  /** A quote as the schema builds it from the given fields: the text fields
      trimmed, the e-mail lower-cased, status `pending`, no total yet. */
  function NewQuote(id: Id, customerId: Option<Id>, customerName: Option<string>,
                    customerEmail: Option<string>, services: seq<QuoteLine>,
                    validUntil: Millis, notes: Option<string>): (q: Quote)
    ensures q.id == id && q.customerId == customerId && q.services == services
    ensures q.validUntil == validUntil && q.status == DefaultStatus && q.total == None
    ensures q.customerName.Some? <==> customerName.Some?
    ensures q.customerName.Some? ==> Text.IsTrimmed(q.customerName.value)
    ensures customerName.Some? ==> q.customerName.value == Text.Trim(customerName.value)
    ensures q.customerEmail.Some? <==> customerEmail.Some?
    ensures customerEmail.Some? ==> q.customerEmail.value == Text.NormaliseEmail(customerEmail.value)
    ensures q.customerEmail.Some? ==> q.customerEmail.value == Text.NormaliseEmail(q.customerEmail.value)
    ensures q.notes.Some? <==> notes.Some?
    ensures q.notes.Some? ==> Text.IsTrimmed(q.notes.value)
    ensures notes.Some? ==> q.notes.value == Text.Trim(notes.value)
  {
    var email :=
      if customerEmail.Some?
      then (Text.NormaliseEmailIdempotent(customerEmail.value); Some(Text.NormaliseEmail(customerEmail.value)))
      else None;
    Quote(id, customerId,
          if customerName.Some? then Some(Text.Trim(customerName.value)) else None,
          email,
          services, DefaultStatus, None, validUntil,
          if notes.Some? then Some(Text.Trim(notes.value)) else None)
  }

  /** What one line adds to the total in the hook:
      `subtotal - subtotal * (discount / 100)` with `subtotal = price * quantity`. */
  function Contribution(l: QuoteLine): real
  {
    var subtotal := l.price * l.quantity;
    subtotal - subtotal * (l.discount / 100.0)
  }

  /** The hook's `reduce`: contributions added from the left, starting at 0. */
  function Total(lines: seq<QuoteLine>): real
  {
    if |lines| == 0 then 0.0
    else Total(lines[..|lines| - 1]) + Contribution(lines[|lines| - 1])
  }

  /** The documented invariant, independently stated: the sum over the lines
      of unit price times quantity times (1 - discount / 100). */
  function DiscountedSum(lines: seq<QuoteLine>): real
  {
    if |lines| == 0 then 0.0
    else lines[0].price * lines[0].quantity * (1.0 - lines[0].discount / 100.0)
         + DiscountedSum(lines[1..])
  }

  /** Appending one line raises the total by exactly that line's share. */
  lemma TotalAppend(lines: seq<QuoteLine>, l: QuoteLine)
    ensures Total(lines + [l]) == Total(lines) + Contribution(l)
  {
    assert (lines + [l])[..|lines|] == lines;
  }

  /** The total of two runs of lines is the sum of their totals. */
  lemma {:induction false} TotalConcat(a: seq<QuoteLine>, b: seq<QuoteLine>)
    ensures Total(a + b) == Total(a) + Total(b)
  {
    if |b| == 0 {
      assert a + b == a;
    } else {
      var init := b[..|b| - 1];
      var last := b[|b| - 1];
      assert b == init + [last];
      assert a + b == (a + init) + [last];
      TotalAppend(a + init, last);
      TotalConcat(a, init);
      TotalAppend(init, last);
    }
  }

  /** The left fold of the hook equals the documented sum. */
  lemma {:induction false} TotalIsDiscountedSum(lines: seq<QuoteLine>)
    ensures Total(lines) == DiscountedSum(lines)
  {
    if |lines| > 0 {
      var head := lines[0];
      assert lines == [head] + lines[1..];
      TotalConcat([head], lines[1..]);
      assert Total([head]) == Contribution(head) by {
        assert [head][..0] == [];
      }
      TotalIsDiscountedSum(lines[1..]);
      var sub := head.price * head.quantity;
      assert Contribution(head) == sub * (1.0 - head.discount / 100.0);
    }
  }

  /** A line within the schema's bounds never lowers the total. */
  lemma ContributionNonNegative(l: QuoteLine)
    requires ValidLine(l)
    ensures Contribution(l) >= 0.0
  {
    var sub := l.price * l.quantity;
    assert sub >= 0.0 by {
      assert l.price >= 0.0 && l.quantity >= 0.0;
    }
    assert Contribution(l) == sub * ((100.0 - l.discount) / 100.0);
    assert (100.0 - l.discount) / 100.0 >= 0.0;
  }

  /** With every line within bounds the total meets the schema's `min: 0`. */
  lemma {:induction false} TotalNonNegative(lines: seq<QuoteLine>)
    requires forall i :: 0 <= i < |lines| ==> ValidLine(lines[i])
    ensures Total(lines) >= 0.0
  {
    if |lines| > 0 {
      TotalNonNegative(lines[..|lines| - 1]);
      ContributionNonNegative(lines[|lines| - 1]);
    }
  }

  /** Two lines: 50 x 2 without discount and 30 x 1 at 50% make 115. */
  lemma TwoLineExample()
    ensures Total([QuoteLine("a", 2.0, 50.0, 0.0), QuoteLine("b", 1.0, 30.0, 50.0)]) == 115.0
  {
    TotalAppend([QuoteLine("a", 2.0, 50.0, 0.0)], QuoteLine("b", 1.0, 30.0, 50.0));
    TotalAppend([], QuoteLine("a", 2.0, 50.0, 0.0));
    assert [] + [QuoteLine("a", 2.0, 50.0, 0.0)] == [QuoteLine("a", 2.0, 50.0, 0.0)];
  }

  /** Three persons at 90 with 10% off come to 243. */
  lemma DiscountExample()
    ensures Contribution(QuoteLine("s", 3.0, 90.0, 10.0)) == 243.0
  {
  }

  /** The pre-save hook: when the quote has at least one line, `total`
      becomes the discounted sum of its lines; otherwise nothing changes.
      No other field is touched. */
  function PreSave(q: Quote): (r: Quote)
    ensures r == q.(total := r.total)
    ensures |q.services| > 0 ==> r.total == Some(DiscountedSum(q.services))
    ensures |q.services| == 0 ==> r == q
    ensures (forall i :: 0 <= i < |q.services| ==> ValidLine(q.services[i])) && |q.services| > 0
            ==> r.total.value >= 0.0
  {
    if |q.services| > 0 then
      TotalIsDiscountedSum(q.services);
      TotalNonNegativeWhenValid(q.services);
      q.(total := Some(Total(q.services)))
    else q
  }

  /** `TotalNonNegative` in the conditional form the hook needs, since the
      hook runs whatever the lines hold. */
  lemma TotalNonNegativeWhenValid(lines: seq<QuoteLine>)
    ensures (forall i :: 0 <= i < |lines| ==> ValidLine(lines[i])) ==> Total(lines) >= 0.0
  {
    if forall i :: 0 <= i < |lines| ==> ValidLine(lines[i]) {
      TotalNonNegative(lines);
    }
  }
}
