/** The cashier screen's cart, as its script keeps it in the page: a list
    of lines, one per product, that buttons add to, change and remove; its
    total and count; the guards before the order is sent; and the lookup of
    the CSRF cookie sent with it. Prices are held in cents. */
module CashierScreen {
  import opened Common
  import opened Models
  import opened OrderSpec

  /** One entry of `itensPedido`. */
  datatype Line = Line(product: ProductId, name: string, price: int, quantity: int)

  /** What every operation keeps: each line has a positive quantity and no
      product has two lines. */
  predicate CartValid(lines: seq<Line>) {
    && (forall k :: 0 <= k < |lines| ==> lines[k].quantity > 0)
    && (forall i, j :: 0 <= i < j < |lines| ==> lines[i].product != lines[j].product)
  }

  /** Units of product `p` in the cart. */
  function UnitsOfProduct(lines: seq<Line>, p: ProductId): int
    decreases |lines|
  {
    if lines == [] then 0
    else (if lines[0].product == p then lines[0].quantity else 0) + UnitsOfProduct(lines[1..], p)
  }

  /** Units in the cart, whatever the product. */
  function Units(lines: seq<Line>): int
    decreases |lines|
  {
    if lines == [] then 0 else lines[0].quantity + Units(lines[1..])
  }

  /** The total the page shows: each line's price times its quantity. */
  function CartTotal(lines: seq<Line>): int
    decreases |lines|
  {
    if lines == [] then 0 else lines[0].price * lines[0].quantity + CartTotal(lines[1..])
  }

  lemma {:induction false} SumsOfConcat(a: seq<Line>, b: seq<Line>, p: ProductId)
    ensures UnitsOfProduct(a + b, p) == UnitsOfProduct(a, p) + UnitsOfProduct(b, p)
    ensures Units(a + b) == Units(a) + Units(b)
    ensures CartTotal(a + b) == CartTotal(a) + CartTotal(b)
    decreases |a|
  {
    if a != [] {
      assert (a + b)[1..] == a[1..] + b;
      SumsOfConcat(a[1..], b, p);
    } else {
      assert a + b == b;
    }
  }

  /** The sums of a cart where line `i` is replaced by `x`. */
  lemma SumsOfUpdate(lines: seq<Line>, i: nat, x: Line, p: ProductId)
    requires i < |lines|
    ensures UnitsOfProduct(lines[i := x], p) == UnitsOfProduct(lines, p) - UnitsOfProduct([lines[i]], p) + UnitsOfProduct([x], p)
    ensures Units(lines[i := x]) == Units(lines) - lines[i].quantity + x.quantity
    ensures CartTotal(lines[i := x]) == CartTotal(lines) - lines[i].price * lines[i].quantity + x.price * x.quantity
  {
    assert lines == lines[..i] + [lines[i]] + lines[i + 1..];
    assert lines[i := x] == lines[..i] + [x] + lines[i + 1..];
    SumsOfConcat(lines[..i] + [lines[i]], lines[i + 1..], p);
    SumsOfConcat(lines[..i], [lines[i]], p);
    SumsOfConcat(lines[..i] + [x], lines[i + 1..], p);
    SumsOfConcat(lines[..i], [x], p);
  }

  /** The sums of a cart without line `i`. */
  lemma SumsOfRemoval(lines: seq<Line>, i: nat, p: ProductId)
    requires i < |lines|
    ensures UnitsOfProduct(lines[..i] + lines[i + 1..], p) == UnitsOfProduct(lines, p) - UnitsOfProduct([lines[i]], p)
    ensures Units(lines[..i] + lines[i + 1..]) == Units(lines) - lines[i].quantity
    ensures CartTotal(lines[..i] + lines[i + 1..]) == CartTotal(lines) - lines[i].price * lines[i].quantity
  {
    assert lines == lines[..i] + [lines[i]] + lines[i + 1..];
    SumsOfConcat(lines[..i] + [lines[i]], lines[i + 1..], p);
    SumsOfConcat(lines[..i], [lines[i]], p);
    SumsOfConcat(lines[..i], lines[i + 1..], p);
  }

  // ---------- adicionarProduto ----------

  /** `itensPedido.find(item => item.produto_id === id)`, as a position. */
  function FindLine(lines: seq<Line>, p: ProductId): (r: Option<nat>)
    ensures r.Some? ==> r.value < |lines| && lines[r.value].product == p
    ensures r.Some? ==> forall k :: 0 <= k < r.value ==> lines[k].product != p
    ensures r.None? ==> forall k :: 0 <= k < |lines| ==> lines[k].product != p
    decreases |lines|
  {
    if lines == [] then None
    else if lines[0].product == p then Some(0)
    else
      var r := FindLine(lines[1..], p);
      assert forall k :: 1 <= k < |lines| ==> lines[k] == lines[1..][k - 1];
      if r.Some? then Some(r.value + 1) else None
  }

  /** A product already in the cart gets one more unit (its line keeps the
      price it was added with); a new one is appended with quantity 1. */
  function Added(lines: seq<Line>, p: ProductId, name: string, price: int): seq<Line> {
    match FindLine(lines, p)
    case Some(i) => lines[i := lines[i].(quantity := lines[i].quantity + 1)]
    case None => lines + [Line(p, name, price, 1)]
  }

  lemma AddKeepsValid(lines: seq<Line>, p: ProductId, name: string, price: int)
    requires CartValid(lines)
    ensures CartValid(Added(lines, p, name, price))
  {
  }

  /** Adding puts one more unit of that product in the cart and leaves every
      other product's quantity alone. */
  lemma AddCounts(lines: seq<Line>, p: ProductId, name: string, price: int, q: ProductId)
    ensures UnitsOfProduct(Added(lines, p, name, price), q) == UnitsOfProduct(lines, q) + (if q == p then 1 else 0)
    ensures Units(Added(lines, p, name, price)) == Units(lines) + 1
  {
    match FindLine(lines, p)
    case Some(i) =>
      SumsOfUpdate(lines, i, lines[i].(quantity := lines[i].quantity + 1), q);
    case None =>
      SumsOfConcat(lines, [Line(p, name, price, 1)], q);
  }

  /** Adding raises the total by the price of that product's line, or by the
      given price for a new line. */
  lemma AddTotal(lines: seq<Line>, p: ProductId, name: string, price: int)
    ensures CartTotal(Added(lines, p, name, price)) == CartTotal(lines) + LinePrice(lines, p, price)
  {
    match FindLine(lines, p)
    case Some(i) =>
      SumsOfUpdate(lines, i, lines[i].(quantity := lines[i].quantity + 1), p);
    case None =>
      SumsOfConcat(lines, [Line(p, name, price, 1)], p);
  }

  /** The price a product's line carries, or `price` when it has none. */
  function LinePrice(lines: seq<Line>, p: ProductId, price: int): int {
    match FindLine(lines, p)
    case Some(i) => lines[i].price
    case None => price
  }

  // ---------- removerProduto ----------

  /** Where `splice(index, 1)` starts: a negative index counts from the end
      and is clamped at 0; one past the end is clamped to the length. */
  function SpliceStart(len: nat, index: int): (r: nat)
    ensures r <= len
    ensures 0 <= index <= len ==> r == index
    ensures -(len as int) <= index < 0 ==> r == len + index
    ensures index < -(len as int) ==> r == 0
    ensures index > len ==> r == len
  {
    if index < 0 then (if len + index < 0 then 0 else len + index)
    else if index > len then len
    else index
  }

  /** `itensPedido.splice(index, 1)`. */
  function Spliced(lines: seq<Line>, index: int): seq<Line> {
    var s := SpliceStart(|lines|, index);
    if s < |lines| then lines[..s] + lines[s + 1..] else lines
  }

  /** A sub-sequence of a valid cart is valid. */
  lemma RemovalKeepsValid(lines: seq<Line>, s: nat)
    requires CartValid(lines) && s < |lines|
    ensures CartValid(lines[..s] + lines[s + 1..])
  {
    var r := lines[..s] + lines[s + 1..];
    assert forall k :: 0 <= k < |r| ==> r[k] == lines[if k < s then k else k + 1];
  }

  lemma RemoveKeepsValid(lines: seq<Line>, index: int)
    requires CartValid(lines)
    ensures CartValid(Spliced(lines, index))
  {
    var s := SpliceStart(|lines|, index);
    if s < |lines| {
      RemovalKeepsValid(lines, s);
    }
  }

  /** An index from `-length` up to `length - 1` removes exactly one line,
      counted from the end when negative; a larger one removes nothing; a
      smaller one removes the first line. The quantities drop by that line's. */
  lemma RemoveWhich(lines: seq<Line>, index: int, q: ProductId)
    ensures index >= |lines| ==> Spliced(lines, index) == lines
    ensures lines != [] && index < |lines| ==>
            var s := if index < -|lines| then 0 else if index < 0 then |lines| + index else index;
            && |Spliced(lines, index)| == |lines| - 1
            && Units(Spliced(lines, index)) == Units(lines) - lines[s].quantity
            && CartTotal(Spliced(lines, index)) == CartTotal(lines) - lines[s].price * lines[s].quantity
            && UnitsOfProduct(Spliced(lines, index), q) == UnitsOfProduct(lines, q) - (if lines[s].product == q then lines[s].quantity else 0)
  {
    var s := SpliceStart(|lines|, index);
    if s < |lines| {
      SumsOfRemoval(lines, s, q);
    }
  }

  // ---------- alterarQuantidade ----------

  /** `itensPedido[index].quantidade += delta`, removing the line once it
      reaches 0 or less. An index with no line (negative ones included) makes
      the script throw a TypeError before anything changes: `None`. */
  function Changed(lines: seq<Line>, index: int, delta: int): (r: Option<seq<Line>>)
    ensures r.Some? <==> 0 <= index < |lines|
  {
    if !(0 <= index < |lines|) then None
    else
      var q := lines[index].quantity + delta;
      if q <= 0 then Some(Spliced(lines, index))
      else Some(lines[index := lines[index].(quantity := q)])
  }

  lemma ChangeKeepsValid(lines: seq<Line>, index: int, delta: int)
    requires CartValid(lines) && Changed(lines, index, delta).Some?
    ensures CartValid(Changed(lines, index, delta).value)
  {
    if lines[index].quantity + delta <= 0 {
      RemoveKeepsValid(lines, index);
    }
  }

  /** The cart's units move by `delta`, or lose the whole line when it
      would reach 0 or less. */
  lemma ChangeUnits(lines: seq<Line>, index: int, delta: int)
    requires Changed(lines, index, delta).Some?
    ensures Units(Changed(lines, index, delta).value) ==
            Units(lines) + if lines[index].quantity + delta > 0 then delta else -lines[index].quantity
  {
    var q := lines[index].quantity + delta;
    if q <= 0 {
      RemoveWhich(lines, index, lines[index].product);
    } else {
      SumsOfUpdate(lines, index, lines[index].(quantity := q), lines[index].product);
    }
  }

  /** The "-" button undoes an add: on a valid cart, adding a product and
      then decrementing its line gives back the cart. */
  lemma AddThenDecrement(lines: seq<Line>, p: ProductId, name: string, price: int)
    requires CartValid(lines)
    ensures var added := Added(lines, p, name, price);
            var i := match FindLine(lines, p) case Some(i) => i case None => |lines|;
            Changed(added, i, -1) == Some(lines)
  {
    var added := Added(lines, p, name, price);
    match FindLine(lines, p)
    case Some(i) =>
      assert added == lines[i := lines[i].(quantity := lines[i].quantity + 1)];
      assert lines[i].quantity > 0;
      assert Changed(added, i, -1) == Some(added[i := added[i].(quantity := added[i].quantity - 1)]);
      assert added[i := added[i].(quantity := added[i].quantity - 1)] == lines;
    case None =>
      assert added == lines + [Line(p, name, price, 1)];
      assert added[|lines|].quantity - 1 <= 0;
      assert Changed(added, |lines|, -1) == Some(Spliced(added, |lines|));
      assert Spliced(added, |lines|) == added[..|lines|] + added[|lines| + 1..];
      assert added[..|lines|] == lines && added[|lines| + 1..] == [];
      assert added[..|lines|] + added[|lines| + 1..] == lines;
      assert Changed(added, |lines|, -1) == Some(lines);
  }

  // ---------- the total and the count ----------

  /** The count the page shows is the number of lines, not of units; on a
      valid cart it never exceeds the units. */
  lemma {:induction false} CountAtMostUnits(lines: seq<Line>)
    requires CartValid(lines)
    ensures |lines| <= Units(lines)
    decreases |lines|
  {
    if lines != [] {
      assert CartValid(lines[1..]) by {
        assert forall k :: 0 <= k < |lines[1..]| ==> lines[1..][k] == lines[k + 1];
      }
      CountAtMostUnits(lines[1..]);
    }
  }

  // ---------- finalizarPedido ----------

  /** How the request ends: the server's `success`, its refusal, or a fetch
      that throws. */
  datatype Reply = Accepted | Refused | Unreachable

  /** The body `finalizarPedido` posts, if its guards let it: the cart must
      not be empty, the customer's name must not be blank after the script's
      trim, and a payment method must be selected (it is not trimmed). */
  function Submission(lines: seq<Line>, customer: string, payment: string, kind: string): (r: Option<OrderRequest>)
    ensures r.Some? <==> lines != [] && !Blank(JavaScriptString, customer) && payment != ""
    ensures r.Some? ==> |r.value.items| == |lines| && r.value.customer == Trim(JavaScriptString, customer)
  {
    if lines == [] || Trim(JavaScriptString, customer) == "" || payment == "" then None
    else Some(OrderRequest(Some(kind), Trim(JavaScriptString, customer), payment, ItemRequests(lines)))
  }

  /** Each line is sent as a plain item of its product and quantity. */
  function ItemRequests(lines: seq<Line>): (r: seq<ItemRequest>)
    ensures |r| == |lines|
    ensures forall k :: 0 <= k < |r| ==> r[k] == ItemRequest(lines[k].product, lines[k].quantity, false, [])
  {
    seq(|lines|, k requires 0 <= k < |lines| => ItemRequest(lines[k].product, lines[k].quantity, false, []))
  }

  /** A valid cart sends each product once, with a positive quantity, so
      the server's refusal for an empty list never applies. */
  lemma SubmissionShape(db: Db, tenant: TenantId, lines: seq<Line>, customer: string, payment: string, kind: string)
    requires CartValid(lines) && Submission(lines, customer, payment, kind).Some?
    ensures var req := Submission(lines, customer, payment, kind).value;
            && (forall k :: 0 <= k < |req.items| ==> req.items[k].quantity > 0 && !req.items[k].isCombo)
            && (forall i, j :: 0 <= i < j < |req.items| ==> req.items[i].product != req.items[j].product)
            && CreateOrderSpec(db, tenant, req).1 != CreateFailed(NoItems)
  {
  }

  /** The script's trim and the server's differ: a name made of the
      information separator U+001C passes the page's check and is then
      refused by the server as blank. */
  lemma TrimsDisagree(db: Db, tenant: TenantId, line: Line)
    ensures var req := Submission([line], "\U{1C}", "dinheiro", "balcao");
            req.Some? && CreateOrderSpec(db, tenant, req.value) == (db, CreateFailed(NoCustomer))
  {
    assert !IsSpace(JavaScriptString, "\U{1C}"[0]);
    assert IsSpace(PythonStr, "\U{1C}"[0]);
    assert Blank(PythonStr, "\U{1C}");
  }

  // ---------- getCookie ----------

  /** `s.split(';')`: never empty; the empty string gives one empty part. */
  function Split(s: string): (r: seq<string>)
    ensures |r| >= 1
    ensures forall k :: 0 <= k < |r| ==> ';' !in r[k]
    decreases |s|
  {
    if s == [] then [[]]
    else
      var rest := Split(s[1..]);
      if s[0] == ';' then [[]] + rest else [[s[0]] + rest[0]] + rest[1..]
  }

  /** The parts joined back with ';'. */
  function Join(parts: seq<string>): string
    requires |parts| >= 1
    decreases |parts|
  {
    if |parts| == 1 then parts[0] else parts[0] + ";" + Join(parts[1..])
  }

  /** Splitting and joining give back the cookie string. */
  lemma {:induction false} JoinSplit(s: string)
    ensures Join(Split(s)) == s
    decreases |s|
  {
    if s != [] {
      var rest := Split(s[1..]);
      JoinSplit(s[1..]);
      if s[0] == ';' {
        assert Split(s) == [[]] + rest;
        assert Join(Split(s)) == [] + ";" + Join(rest);
      } else {
        var parts := [[s[0]] + rest[0]] + rest[1..];
        assert Split(s) == parts;
        if |rest| == 1 {
          assert Join(parts) == [s[0]] + rest[0];
        } else {
          assert parts[1..] == rest[1..];
          assert Join(parts) == [s[0]] + rest[0] + ";" + Join(rest[1..]);
        }
      }
    }
  }

  /** Joining parts without ';' and splitting again gives back the parts. */
  lemma {:induction false} SplitJoin(parts: seq<string>)
    requires |parts| >= 1 && forall k :: 0 <= k < |parts| ==> ';' !in parts[k]
    ensures Split(Join(parts)) == parts
    decreases |parts|, |parts[0]|
  {
    if |parts| == 1 {
      SplitPlain(parts[0]);
    } else {
      SplitPlainThen(parts[0], Join(parts[1..]));
      SplitJoin(parts[1..]);
    }
  }

  /** A string without ';' is one part. */
  lemma {:induction false} SplitPlain(s: string)
    requires ';' !in s
    ensures Split(s) == [s]
    decreases |s|
  {
    if s != [] {
      assert forall k :: 0 <= k < |s[1..]| ==> s[1..][k] == s[k + 1];
      SplitPlain(s[1..]);
      assert [s[0]] + s[1..] == s;
    }
  }

  /** A part without ';' followed by ';' and the rest splits off in front. */
  lemma {:induction false} SplitPlainThen(a: string, b: string)
    requires ';' !in a
    ensures Split(a + ";" + b) == [a] + Split(b)
    decreases |a|
  {
    if a == [] {
      assert a + ";" + b == [';'] + b;
      assert ([';'] + b)[1..] == b;
    } else {
      assert forall k :: 0 <= k < |a[1..]| ==> a[1..][k] == a[k + 1];
      SplitPlainThen(a[1..], b);
      assert (a + ";" + b)[1..] == a[1..] + ";" + b;
      assert [a[0]] + a[1..] == a;
    }
  }

  /** `cookie.substring(0, name.length + 1) === name + '='`: `substring`
      stops at the end of a shorter string, so this is a prefix test. */
  predicate NamesCookie(part: string, name: string) {
    var c := Trim(JavaScriptString, part);
    var n := |name| + 1;
    (if n <= |c| then c[..n] else c) == name + "="
  }

  /** The value of the first part that names the cookie, after the script's
      trim; `decodeURIComponent` is taken as the identity. */
  function CookieIn(parts: seq<string>, name: string): (r: Option<string>)
    ensures r.Some? <==> exists k :: 0 <= k < |parts| && NamesCookie(parts[k], name)
    decreases |parts|
  {
    if parts == [] then None
    else if NamesCookie(parts[0], name) then Some(Trim(JavaScriptString, parts[0])[|name| + 1..])
    else
      var r := CookieIn(parts[1..], name);
      assert forall k :: 1 <= k < |parts| ==> parts[k] == parts[1..][k - 1];
      assert r.Some? ==> exists k :: 1 <= k < |parts| && NamesCookie(parts[k], name) by {
        if r.Some? {
          var k :| 0 <= k < |parts[1..]| && NamesCookie(parts[1..][k], name);
          assert parts[k + 1] == parts[1..][k];
        }
      }
      r
  }

  /** `getCookie`: no cookie string gives `null`. */
  method GetCookie(cookie: string, name: string) returns (r: Option<string>)
    ensures cookie == "" ==> r.None?
    ensures cookie != "" ==> r == CookieIn(Split(cookie), name)
  {
    r := None;
    if cookie != "" {
      var cookies := Split(cookie);
      var i := 0;
      while i < |cookies|
        invariant 0 <= i <= |cookies|
        invariant CookieIn(cookies, name) == CookieIn(cookies[i..], name)
      {
        var c := Trim(JavaScriptString, cookies[i]);
        var n := |name| + 1;
        var head := if n <= |c| then c[..n] else c;
        if head == name + "=" {
          r := Some(c[n..]);
          return;
        }
        assert cookies[i..][1..] == cookies[i + 1..];
        i := i + 1;
      }
    }
  }

  /** The cookie a page sets is found again: `name=value` with nothing to
      trim at its edges and no ';' in it. */
  lemma CookieRoundTrip(others: seq<string>, name: string, value: string)
    requires forall k :: 0 <= k < |others| ==> !NamesCookie(others[k], name)
    requires ';' !in name + "=" + value
    requires !IsSpace(JavaScriptString, (name + "=" + value)[0])
    requires !IsSpace(JavaScriptString, (name + "=" + value)[|name + "=" + value| - 1])
    ensures CookieIn(others + [name + "=" + value], name) == Some(value)
  {
    var c := name + "=" + value;
    TrimKeeps(c);
    assert c[..|name| + 1] == name + "=";
    assert NamesCookie(c, name);
    CookieAfter(others, [c], name);
  }

  /** A string with no white space at its edges is its own trim. */
  lemma TrimKeeps(s: string)
    requires s != [] && !IsSpace(JavaScriptString, s[0]) && !IsSpace(JavaScriptString, s[|s| - 1])
    ensures Trim(JavaScriptString, s) == s
  {
  }

  lemma CookieInCons(parts: seq<string>, name: string)
    requires parts != [] && !NamesCookie(parts[0], name)
    ensures CookieIn(parts, name) == CookieIn(parts[1..], name)
  {
  }

  /** Parts that do not name the cookie are skipped. */
  lemma {:induction false} CookieAfter(others: seq<string>, rest: seq<string>, name: string)
    requires forall k :: 0 <= k < |others| ==> !NamesCookie(others[k], name)
    ensures CookieIn(others + rest, name) == CookieIn(rest, name)
    decreases |others|
  {
    if others != [] {
      assert (others + rest)[1..] == others[1..] + rest;
      assert (others + rest)[0] == others[0];
      CookieInCons(others + rest, name);
      assert forall k :: 0 <= k < |others[1..]| ==> others[1..][k] == others[k + 1];
      CookieAfter(others[1..], rest, name);
    } else {
      assert others + rest == rest;
    }
  }

  /** A cookie whose name only begins with the wanted one is not taken for
      it: `csrftokenx=1` does not answer `csrftoken`. */
  lemma LongerNameIgnored(name: string, suffix: string, value: string)
    requires name != [] && suffix != [] && suffix[0] != '='
    requires ';' !in name + suffix + "=" + value
    ensures !NamesCookie(name + suffix + "=" + value, name)
  {
    var c := name + suffix + "=" + value;
    var t := Trim(JavaScriptString, c);
    if t != [] && |name| + 1 <= |t| {
      TrimmedAt(c, name, suffix);
    }
  }

  /** Where a trimmed string sits inside the original. */
  lemma TrimmedAt(c: string, name: string, suffix: string)
    requires name != [] && suffix != [] && suffix[0] != '='
    requires |name| + 1 <= |c| && c[..|name| + 1] == name + [suffix[0]]
    ensures var t := Trim(JavaScriptString, c);
            |name| + 1 <= |t| ==> t[..|name| + 1] != name + "="
  {
    var t := Trim(JavaScriptString, c);
    var n := |name| + 1;
    if n <= |t| {
      if IsSpace(JavaScriptString, name[0]) {
        TrimEdges(JavaScriptString, c);
        assert (name + "=")[0] == name[0];
      } else {
        assert c[0] == name[0];
        assert TrimStart(JavaScriptString, c) == c;
        assert t == TrimEnd(JavaScriptString, c);
        assert t[..n] == c[..n];
        assert (name + "=")[n - 1] == '=' && c[..n][n - 1] == suffix[0];
      }
    }
  }

  // ---------- the page ----------

  /** `itensPedido` with the handlers that change it. */
  class Cart {
    var lines: seq<Line>

    ghost predicate Valid()
      reads this
    {
      CartValid(lines)
    }

    constructor ()
      ensures lines == [] && Valid()
    {
      lines := [];
    }

    /** `adicionarProduto`. */
    method Add(p: ProductId, name: string, price: int)
      requires Valid()
      modifies this
      ensures lines == Added(old(lines), p, name, price)
      ensures Valid()
    {
      AddKeepsValid(lines, p, name, price);
      var found := FindLine(lines, p);
      if found.Some? {
        var i := found.value;
        lines := lines[i := lines[i].(quantity := lines[i].quantity + 1)];
      } else {
        lines := lines + [Line(p, name, price, 1)];
      }
    }

    /** `removerProduto`. */
    method Remove(index: int)
      requires Valid()
      modifies this
      ensures lines == Spliced(old(lines), index)
      ensures Valid()
    {
      RemoveKeepsValid(lines, index);
      var s := SpliceStart(|lines|, index);
      if s < |lines| {
        lines := lines[..s] + lines[s + 1..];
      }
    }

    /** `alterarQuantidade`; `false` when the script throws. */
    method ChangeQuantity(index: int, delta: int) returns (ok: bool)
      requires Valid()
      modifies this
      ensures ok <==> Changed(old(lines), index, delta).Some?
      ensures lines == Changed(old(lines), index, delta).GetOr(old(lines))
      ensures Valid()
    {
      if !(0 <= index < |lines|) {
        return false;
      }
      ChangeKeepsValid(lines, index, delta);
      var q := lines[index].quantity + delta;
      lines := lines[index := lines[index].(quantity := q)];
      if q <= 0 {
        lines := Spliced(lines, index);
      }
      ok := true;
    }

    /** The loop of `atualizarListaItens` that sums the subtotals. */
    method Total() returns (t: int)
      ensures t == CartTotal(lines)
    {
      t := 0;
      var k := 0;
      while k < |lines|
        invariant 0 <= k <= |lines|
        invariant CartTotal(lines) == t + CartTotal(lines[k..])
      {
        assert lines[k..][1..] == lines[k + 1..];
        t := t + lines[k].price * lines[k].quantity;
        k := k + 1;
      }
    }

    /** `finalizarPedido`, with the server's answer as a parameter: the cart
      is emptied only when the order was sent and accepted. */
    method Finalize(customer: string, payment: string, kind: string, reply: Reply) returns (sent: Option<OrderRequest>)
      requires Valid()
      modifies this
      ensures sent == Submission(old(lines), customer, payment, kind)
      ensures lines == (if sent.Some? && reply == Accepted then [] else old(lines))
      ensures Valid()
    {
      if lines == [] {
        return None;
      }
      var name := Trim(JavaScriptString, customer);
      if name == "" {
        return None;
      }
      if payment == "" {
        return None;
      }
      sent := Some(OrderRequest(Some(kind), name, payment, ItemRequests(lines)));
      if reply == Accepted {
        lines := [];
      }
    }
  }
}
