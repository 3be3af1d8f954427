/** Dividends and splits: what each does to every team's books, and what that does to account values. */
module Corporate {
  import opened Money
  import opened Books
  import opened Totals
  import opened Risk
  import opened Liquidation
  import Tape

  // ------------------------------------------------------------------ the operations

  /** Credit a holder, debit a short: the settled amount per share times the signed quantity. */
  function DividendPaid(b: Book, symbol: Symbol, amount: int): Book {
    var qty := QtyOf(b.positions, symbol);
    if qty == 0 then b else Posted(b, Dividend, Paise(amount * qty, 1))
  }

  /** Pay a dividend to every account and mark the stock ex-dividend; refused, changing nothing, unless the
      amount is less than the price. */
  method PayDividend(accounts: seq<Account>, symbol: Symbol, ins: Tape.Instrument, perShare: int) returns (ok: bool)
    requires ins.tick > 0
    requires forall i | 0 <= i < |accounts| :: accounts[i].Valid()
    requires forall i, j | 0 <= i < j < |accounts| :: accounts[i] != accounts[j]
    modifies ins, accounts`cash, accounts`ledger
    ensures ok == (Paise(perShare, 1) < old(ins.last))
    ensures !ok ==> ins.Value() == old(ins.Value())
    ensures ok ==> ins.Value() == Tape.WentEx(old(ins.Value()), Paise(perShare, 1))
    ensures forall i | 0 <= i < |accounts| ::
      var before := old(accounts[i].Value());
      accounts[i].Value() == if ok then DividendPaid(before, symbol, Paise(perShare, 1)) else before
  {
    hide RoundDiv, Paise, RoundToTick, DividendPaid;
    var amount := Paise(perShare, 1);
    ok := amount < ins.last;
    if !ok {
      return;
    }
    for k := 0 to |accounts|
      invariant ins.Value() == old(ins.Value())
      invariant forall i | 0 <= i < |accounts| :: accounts[i].Valid()
      invariant forall i | 0 <= i < |accounts| ::
        var before := old(accounts[i].Value());
        accounts[i].Value() == if i < k then DividendPaid(before, symbol, amount) else before
    {
      PayOne(accounts[k], symbol, amount);
    }
    ins.GoEx(amount);
  }

  method PayOne(account: Account, symbol: Symbol, amount: int)
    requires account.Valid()
    modifies account`cash, account`ledger
    ensures account.Valid() && account.Value() == DividendPaid(old(account.Value()), symbol, amount)
  {
    hide RoundDiv, Paise;
    var qty := Holding(account, symbol);
    if qty != 0 {
      account.PostLedger(Dividend, Paise(amount * qty, 1));
    }
  }

  /** An account's signed holding of a symbol. */
  method Holding(account: Account, symbol: Symbol) returns (qty: int)
    requires account.Valid()
    ensures qty == QtyOf(account.Value().positions, symbol)
  {
    for k := 0 to |account.positions|
      invariant forall j | 0 <= j < k :: account.positions[j].symbol != symbol
    {
      if account.positions[k].symbol == symbol {
        FindIs(account.Recs(), symbol, k);
        return account.positions[k].qty;
      }
    }
    FindIs(account.Recs(), symbol, |account.positions|);
    qty := 0;
  }

  /** Scale one account's holding. */
  method SplitHolding(account: Account, symbol: Symbol, num: int, den: int)
    requires account.Valid() && num > 0 && den > 0
    modifies account.positions
    ensures account.Valid()
    ensures var b := old(account.Value()); account.Value() == b.(positions := SplitRow(b.positions, symbol, num, den))
  {
    hide RoundDiv;
    ghost var ps := account.Recs();
    for k := 0 to |account.positions|
      invariant forall j | 0 <= j < k :: account.positions[j].symbol != symbol
      invariant account.Recs() == ps
    {
      var p := account.positions[k];
      if p.symbol == symbol {
        FindIs(ps, symbol, k);
        if p.qty != 0 {
          p.qty := Truncated(p.qty * num, den);
          p.avgCost := RoundDiv(p.avgCost * den, num);
        }
        assert p.Rec() == SplitPos(ps[k], num, den);
        assert account.Recs() == ps[k := p.Rec()];
        return;
      }
    }
    FindIs(ps, symbol, |account.positions|);
  }

  // ------------------------------------------------------------------ what they are worth

  /** Changing one mark moves a book's exposure by the change times the holding. */
  lemma {:induction false} Remarked(ps: seq<Pos>, marks: Marks, symbol: Symbol, price: int)
    requires DistinctSymbols(ps) && symbol in marks
    ensures SumBy(Exposure(marks[symbol := price]), ps)
         == SumBy(Exposure(marks), ps) + (price - marks[symbol]) * QtyOf(ps, symbol)
  {
    if ps != [] {
      assert forall i | 0 <= i < |ps[1..]| :: ps[1..][i] == ps[i + 1];
      Remarked(ps[1..], marks, symbol, price);
      var q := ps[0].qty;
      if ps[0].symbol == symbol {
        FindIs(ps[1..], symbol, |ps[1..]|);
        assert price * q == marks[symbol] * q + (price - marks[symbol]) * q;
      }
    }
  }

  /** Main result. A dividend changes each team's account value by its holding times (ex-price - price +
      amount): by nothing exactly when the team holds none of the stock or the amount is on the tick grid. */
  lemma DividendNeutral(b: Book, marks: Marks, symbol: Symbol, stock: Tape.Stock, amount: int, rules: MarginRules)
    requires DistinctSymbols(b.positions) && OnGrid(b.cash, MICROS_PER_PAISA) && OnGrid(amount, MICROS_PER_PAISA)
    requires symbol in marks && stock.last == marks[symbol]
    requires ValidTick(stock.tick) && OnGrid(stock.last, stock.tick)
    ensures var ex := Tape.WentEx(stock, amount).last;
      var after := Valued(DividendPaid(b, symbol, amount), marks[symbol := ex], rules).equity;
      var change := after - Valued(b, marks, rules).equity;
      && change == QtyOf(b.positions, symbol) * (ex - marks[symbol] + amount)
      && (change == 0 <==> QtyOf(b.positions, symbol) == 0 || OnGrid(amount, stock.tick))
  {
    hide RoundDiv, RoundToTick, Valued, Posted, Paise, QtyOf, SumBy, Exposure, DistinctSymbols;
    var qty, last, tick := QtyOf(b.positions, symbol), marks[symbol], stock.tick;
    var ex := Tape.ExPrice(last, amount, tick);
    var b' := DividendPaid(b, symbol, amount);
    GridScale(amount, qty, MICROS_PER_PAISA);
    PaiseExact(amount * qty);
    PostedExact(b, Dividend, amount * qty);
    EquityIsCashPlusExposure(b, marks, rules);
    EquityIsCashPlusExposure(b', marks[symbol := ex], rules);
    Remarked(b.positions, marks, symbol, ex);
    assert qty * (ex - last + amount) == (ex - last) * qty + amount * qty;
    ExactDividend(last, amount, tick);
    ProductZero(qty, ex - last + amount);
  }

  /** The price falls by exactly the amount when, and only when, the amount is a whole number of ticks. */
  lemma ExactDividend(last: int, amount: int, tick: int)
    requires tick > 0 && OnGrid(last, tick)
    ensures Tape.ExPrice(last, amount, tick) == last - amount <==> OnGrid(amount, tick)
  {
    hide RoundDiv, RoundToTick;
    var ex := Tape.ExPrice(last, amount, tick);
    RoundToTickGrid(last - amount, 1, tick);
    if OnGrid(amount, tick) { GridSum(last, amount, tick); }
    if ex == last - amount { GridSum(last, ex, tick); }
  }

  lemma ProductZero(x: int, y: int)
    ensures x * y == 0 <==> x == 0 || y == 0
  {
  }

  /** A dividend of two paise on a stock at Rs 100 with a five-paisa tick is accepted, leaves the price where
      it was and makes the holder of one share two paise richer. */
  lemma SmallDividendIsAGift(b: Book, marks: Marks, symbol: Symbol, stock: Tape.Stock, rules: MarginRules)
    requires DistinctSymbols(b.positions) && OnGrid(b.cash, MICROS_PER_PAISA)
    requires symbol in marks && marks[symbol] == 100 * MICROS_PER_RUPEE && QtyOf(b.positions, symbol) == 1
    requires stock.last == marks[symbol] && stock.tick == 5 * MICROS_PER_PAISA
    ensures var amount := 2 * MICROS_PER_PAISA;
      var ex := Tape.WentEx(stock, amount).last;
      && amount < marks[symbol] && ex == marks[symbol]
      && Valued(DividendPaid(b, symbol, amount), marks[symbol := ex], rules).equity
         == Valued(b, marks, rules).equity + amount
  {
    hide Valued, DividendPaid, QtyOf, DistinctSymbols;
    DivUnique(199_960_000 + 50_000, 100_000, 2_000);
    DividendNeutral(b, marks, symbol, stock, 2 * MICROS_PER_PAISA, rules);
  }

  /** New price and quantity against old, for a holding of `qty` shares at `price`. */
  lemma SplitValue(price: int, qty: int, num: int, den: int, tick: int)
    requires price >= 0 && num > 0 && den > 0 && tick > 0
    ensures var p, q := Tape.SplitPrice(price, num, den, tick), Truncated(qty * num, den);
      && 2 * (num * Abs(p * q - price * qty)) <= num * tick * Abs(q) + 2 * price * (den - 1)
      && (p * q == price * qty <==> (p * num - price * den) * q == price * (qty * num - q * den))
      && (OnGrid(qty * num, den) ==> (p * q == price * qty <==> qty == 0 || OnGrid(price * den, num * tick)))
  {
    hide RoundDiv, RoundToTick, Truncated;
    var p, q := Tape.SplitPrice(price, num, den, tick), Truncated(qty * num, den);
    var a, b := p * num - price * den, qty * num - q * den;
    RoundToTickGrid(price * den, num, tick);
    TruncatedBounds(qty * num, den);
    SplitIdentity(p, q, price, qty, num, den);
    TriangleBound(a, q, price, b, num * tick, den - 1);
    AbsScale(num, p * q - price * qty);
    ProductZero(num, p * q - price * qty);
    if OnGrid(qty * num, den) {
      ProductZero(a, q);
      ProductZero(q, den);
      ProductZero(qty, num);
      ExactSplit(price, num, den, tick);
    }
  }

  /** The price scales exactly when, and only when, the scaled price is a whole number of ticks. */
  lemma ExactSplit(price: int, num: int, den: int, tick: int)
    requires num > 0 && den > 0 && tick > 0
    ensures Tape.SplitPrice(price, num, den, tick) * num == price * den <==> OnGrid(price * den, num * tick)
  {
    hide RoundDiv, RoundToTick;
    var p := Tape.SplitPrice(price, num, den, tick);
    RoundToTickGrid(price * den, num, tick);
    if p * num == price * den {
      GridQuotient(p, tick);
      assert p / tick * tick * num == p / tick * (num * tick);
      GridOfMultiple(price * den, p / tick, num * tick);
    }
  }

  lemma TruncatedBounds(n: int, d: int)
    requires d > 0
    ensures Abs(n - Truncated(n, d) * d) <= d - 1
    ensures OnGrid(n, d) ==> Truncated(n, d) * d == n
  {
    DivBounds(n, d);
    DivBounds(-n, d);
    if OnGrid(n, d) {
      GridQuotient(n, d);
      if n < 0 { DivUnique(-n, d, -(n / d)); }
    }
  }

  lemma SplitIdentity(p: int, q: int, price: int, qty: int, num: int, den: int)
    ensures num * (p * q - price * qty) == (p * num - price * den) * q - price * (qty * num - q * den)
  {
    calc {
      (p * num - price * den) * q - price * (qty * num - q * den);
      p * num * q - price * den * q - price * (qty * num) + price * (q * den);
      num * (p * q) - num * (price * qty);
      num * (p * q - price * qty);
    }
  }

  lemma AbsScale(k: int, x: int)
    requires k > 0
    ensures Abs(k * x) == k * Abs(x)
  {
    if x >= 0 { MulMono(k, 0, x); } else { MulMono(k, x, -1); assert k * -x == -(k * x); }
  }

  /** `|a q - price b|` from bounds on `a` and `b`. */
  lemma TriangleBound(a: int, q: int, price: int, b: int, twoA: int, maxB: int)
    requires 2 * Abs(a) <= twoA && Abs(b) <= maxB && price >= 0
    ensures 2 * Abs(a * q - price * b) <= twoA * Abs(q) + 2 * price * maxB
  {
    ProductBound(a, q, twoA);
    ProductBound(b, price, 2 * maxB);
    hide Abs;
    var x, y := a * q, price * b;
    assert 2 * Abs(x - y) <= 2 * Abs(x) + 2 * Abs(y) by { Triangle(x, y); }
    assert 2 * maxB * price == 2 * price * maxB;
  }

  lemma ProductBound(a: int, q: int, twice: int)
    requires 2 * Abs(a) <= twice
    ensures 2 * Abs(a * q) <= twice * Abs(q)
  {
    AbsProduct(a, q);
    hide Abs;
    MulMono(Abs(q), 2 * Abs(a), twice);
  }

  lemma Triangle(x: int, y: int)
    ensures Abs(x - y) <= Abs(x) + Abs(y)
  {
  }

  /** Main result. A split changes each team's account value by at most half a tick for each new share plus
      less than one share at the exact new price. It changes nothing exactly when what snapping the price
      adds to the new shares is what the dropped fraction was worth: where no fraction is dropped, when the team
      holds none of the stock or the scaled price is a whole number of ticks. */
  lemma SplitNeutral(
    b: Book, marks: Marks, symbol: Symbol, stock: Tape.Stock, num: int, den: int, rules: MarginRules)
    requires DistinctSymbols(b.positions) && symbol in marks && marks[symbol] == stock.last >= 0
    requires num > 0 && den > 0 && stock.tick > 0
    ensures var price, qty, tick := marks[symbol], QtyOf(b.positions, symbol), stock.tick;
      var p, q := Tape.Divided(stock, num, den).last, Truncated(qty * num, den);
      var b' := b.(positions := SplitRow(b.positions, symbol, num, den));
      var change := Valued(b', marks[symbol := p], rules).equity - Valued(b, marks, rules).equity;
      && 2 * (num * Abs(change)) <= num * tick * Abs(q) + 2 * price * (den - 1)
      && (change == 0 <==> (p * num - price * den) * q == price * (qty * num - q * den))
      && (OnGrid(qty * num, den) ==> (change == 0 <==> qty == 0 || OnGrid(price * den, num * tick)))
  {
    hide RoundDiv, RoundToTick, Valued, SplitRow, QtyOf, Truncated, Abs, DistinctSymbols, Tape.SplitPrice, OnGrid;
    SplitChange(b, marks, symbol, num, den, stock.tick, rules);
    SplitValue(marks[symbol], QtyOf(b.positions, symbol), num, den, stock.tick);
  }

  /** A split changes equity by the difference between the holding's new value and its old one. */
  lemma SplitChange(b: Book, marks: Marks, symbol: Symbol, num: int, den: int, tick: int, rules: MarginRules)
    requires DistinctSymbols(b.positions) && symbol in marks && num > 0 && den > 0 && tick > 0
    ensures var price, qty := marks[symbol], QtyOf(b.positions, symbol);
      var p, q := Tape.SplitPrice(price, num, den, tick), Truncated(qty * num, den);
      var b' := b.(positions := SplitRow(b.positions, symbol, num, den));
      Valued(b', marks[symbol := p], rules).equity - Valued(b, marks, rules).equity == p * q - price * qty
  {
    hide RoundDiv, RoundToTick, Valued, SplitRow, SumBy, Exposure, QtyOf, Truncated, DistinctSymbols, Tape.SplitPrice;
    var price, qty := marks[symbol], QtyOf(b.positions, symbol);
    var p := Tape.SplitPrice(price, num, den, tick);
    var b' := b.(positions := SplitRow(b.positions, symbol, num, den));
    EquityIsCashPlusExposure(b, marks, rules);
    EquityIsCashPlusExposure(b', marks[symbol := p], rules);
    Remarked(b.positions, marks, symbol, p);
    SplitExposure(b.positions, marks[symbol := p], symbol, num, den);
    assert (p - price) * qty == p * qty - price * qty;
  }

  /** A three-for-one split at Rs 100 with a five-paisa tick makes the holder of one share five paise richer. */
  lemma ThreeForOneIsAGift(b: Book, marks: Marks, symbol: Symbol, stock: Tape.Stock, rules: MarginRules)
    requires DistinctSymbols(b.positions) && symbol in marks && marks[symbol] == 100 * MICROS_PER_RUPEE
    requires QtyOf(b.positions, symbol) == 1
    requires stock.last == marks[symbol] && stock.tick == 5 * MICROS_PER_PAISA
    ensures var p := Tape.Divided(stock, 3, 1).last;
      var b' := b.(positions := SplitRow(b.positions, symbol, 3, 1));
      Valued(b', marks[symbol := p], rules).equity == Valued(b, marks, rules).equity + stock.tick
  {
    hide Valued, SplitRow, QtyOf, DistinctSymbols, Tape.SplitPrice;
    ThirdOfAHundred();
    SplitChange(b, marks, symbol, 3, 1, 5 * MICROS_PER_PAISA, rules);
  }

  lemma ThirdOfAHundred()
    ensures Tape.SplitPrice(100 * MICROS_PER_RUPEE, 3, 1, 5 * MICROS_PER_PAISA) == 33_350_000
  {
    DivUnique(200_000_000 + 150_000, 300_000, 667);
  }

  lemma SplitExposure(ps: seq<Pos>, marks: Marks, symbol: Symbol, num: int, den: int)
    requires symbol in marks && num > 0 && den > 0
    ensures var mark, qty := marks[symbol], QtyOf(ps, symbol);
      SumBy(Exposure(marks), SplitRow(ps, symbol, num, den))
      == SumBy(Exposure(marks), ps) + mark * Truncated(qty * num, den) - mark * qty
  {
    hide RoundDiv;
    var i := Find(ps, symbol);
    if i < |ps| {
      SumByUpdate(Exposure(marks), ps, i, SplitPos(ps[i], num, den));
    }
    ZeroSplits(num, den);
  }

  lemma ZeroSplits(num: int, den: int)
    requires den > 0
    ensures Truncated(0 * num, den) == 0
  {
    DivUnique(0, den, 0);
  }
}
