/** Laying out recall within its limits: usage history shapes the notices and nothing else. */
module RecallLayout {
  import opened Core
  import opened Sorting
  import opened Text

  const DEFAULT_MAX_TOKENS: int := 1500
  const DEFAULT_MAX_CHARS: int := 9000
  const BLOCK_C_MAX_TOKENS: int := 150
  const BLOCK_D_MAX_TOKENS: int := 30
  const BLOCK_B_TITLE := "## 기억 목록"
  const BLOCK_C_TITLE := "## 변경 알림"
  const L3_TITLE := "## 프로젝트 요약"
  const L3_LIST_TITLES := ["### 열린 일", "### 현재 결정", "### 교정·규칙"]

  function Least(a: int, b: int): int {
    if a <= b then a else b
  }

  /** Token and character limits of a block: its share of smaller limits, never more than its budget. */
  function BlockShare(budget: nat, maxTokens: nat, maxChars: nat): (r: (nat, nat))
    ensures r.0 <= budget && r.1 <= 6 * budget
    ensures maxTokens >= DEFAULT_MAX_TOKENS ==> r.0 == budget
    ensures maxChars >= DEFAULT_MAX_CHARS ==> r.1 == 6 * budget
    ensures budget <= DEFAULT_MAX_TOKENS ==> r.0 <= maxTokens && r.1 <= maxChars
  {
    ShareBounds(budget, maxTokens, maxChars);
    (Least(budget * DEFAULT_MAX_TOKENS, budget * maxTokens) / DEFAULT_MAX_TOKENS,
     Least(budget * DEFAULT_MAX_CHARS, budget * maxChars) / DEFAULT_MAX_TOKENS)
  }

  lemma ShareBounds(budget: nat, maxTokens: nat, maxChars: nat)
    ensures 0 <= Least(budget * 1500, budget * maxTokens) / 1500 <= budget
    ensures 0 <= Least(budget * 9000, budget * maxChars) / 1500 <= 6 * budget
    ensures maxTokens >= 1500 ==> Least(budget * 1500, budget * maxTokens) / 1500 == budget
    ensures maxChars >= 9000 ==> Least(budget * 9000, budget * maxChars) / 1500 == 6 * budget
    ensures budget <= 1500 ==> Least(budget * 1500, budget * maxTokens) / 1500 <= maxTokens
    ensures budget <= 1500 ==> Least(budget * 9000, budget * maxChars) / 1500 <= maxChars
  {
    TimesGrows(budget, maxTokens, 1500);
    TimesGrows(budget, 1500, maxTokens);
    TimesGrows(budget, maxChars, 9000);
    TimesGrows(budget, 9000, maxChars);
    TimesGrows(maxTokens, budget, 1500);
    TimesGrows(maxChars, budget, 1500);
  }

  lemma TimesGrows(n: nat, a: nat, b: nat)
    ensures a <= b ==> n * a <= n * b
    ensures 0 <= n * a
  {
  }

  /** `estimate_recall_tokens`: whitespace-separated words. */
  function Tokens(text: string): nat {
    |Words(text)|
  }

  function Lines(lines: seq<string>): string {
    if lines == [] then "" else lines[0] + "\n" + Lines(lines[1..])
  }

  function Block(title: string, lines: seq<string>): string {
    title + "\n" + Lines(lines)
  }

  // ---- The page ----

  /** Everything the layout is given but the notices. */
  datatype Page = Page(pins: string, summary: string, items: seq<string>, blockD: string, full: bool,
                       maxTokens: nat, maxChars: nat, omittedLine: nat -> string)

  function ShareOfC(p: Page): (nat, nat) {
    if p.full then BlockShare(BLOCK_C_MAX_TOKENS, p.maxTokens, p.maxChars) else (BLOCK_C_MAX_TOKENS, p.maxChars)
  }

  /** Block D's need beyond its own share comes out of block C. */
  function NoticeTokens(p: Page): int {
    var over := Tokens(p.blockD) - BlockShare(BLOCK_D_MAX_TOKENS, p.maxTokens, p.maxChars).0;
    ShareOfC(p).0 - if over > 0 then over else 0
  }

  function Given(text: string): seq<string> {
    if text == "" then [] else [text]
  }

  function BlockB(p: Page, shown: nat): seq<string>
    requires shown <= |p.items|
  {
    if p.items == [] then []
    else
      var omitted := |p.items| - shown;
      [Block(BLOCK_B_TITLE, p.items[..shown] + if omitted > 0 then [p.omittedLine(omitted)] else [])]
  }

  function BlockC(notices: seq<string>): seq<string> {
    if notices == [] then [] else [Block(BLOCK_C_TITLE, notices)]
  }

  function Render(p: Page, shown: nat, notices: seq<string>): string
    requires shown <= |p.items|
  {
    Join(Given(p.pins) + Given(p.summary) + BlockB(p, shown) + BlockC(notices) + Given(p.blockD), "\n")
  }

  predicate Fits(p: Page, text: string) {
    Tokens(text) <= p.maxTokens && |text| <= p.maxChars
  }

  /** Block B leaves block C its whole share. */
  predicate BFits(p: Page, shown: nat)
    requires shown <= |p.items|
  {
    var text := Render(p, shown, []);
    Tokens(text) + ShareOfC(p).0 <= p.maxTokens && |text| + 1 + ShareOfC(p).1 <= p.maxChars
  }

  /** The items of block B: as many as leave block C its share. Notices do not appear here. */
  ghost predicate ItemsShown(p: Page, shown: nat) {
    && shown <= |p.items| && (shown == 0 || BFits(p, shown))
    && forall k: nat :: shown < k <= |p.items| ==> !BFits(p, k)
  }

  // ---- The layout ----

  datatype Layout = Layout(text: string, items: nat, notices: nat)

  predicate NoticesFit(p: Page, notices: seq<string>) {
    var block := Block(BLOCK_C_TITLE, notices);
    Tokens(block) <= NoticeTokens(p) && |block| <= ShareOfC(p).1
  }

  /** The leading notices up to the first that block C has no room for. */
  ghost predicate Chosen(p: Page, notices: seq<string>, n: nat) {
    && n <= |notices| && (forall k: nat :: 0 < k <= n ==> NoticesFit(p, notices[..k]))
    && (n < |notices| ==> !NoticesFit(p, notices[..n + 1]))
  }

  /** As many notices as the page has room for beside the items. */
  ghost predicate NoticesShown(p: Page, items: nat, notices: seq<string>, n: nat)
    requires items <= |p.items|
  {
    && n <= |notices| && (n == 0 || Fits(p, Render(p, items, notices[..n])))
    && forall k: nat :: n < k <= |notices| ==> !Fits(p, Render(p, items, notices[..k]))
  }

  /** As many of the items as the page has room for beside the notices. */
  ghost predicate ItemsLeft(p: Page, items: nat, notices: seq<string>, n: nat)
    requires items <= |p.items|
  {
    && n <= items && (n == 0 || Fits(p, Render(p, n, notices)))
    && forall k: nat :: n < k <= items ==> !Fits(p, Render(p, k, notices))
  }

  /** What is printed: the items that leave block C its share, then notices, then fewer items if need be, or nothing. */
  ghost predicate Arranged(p: Page, notices: seq<string>, reserved: nat, chosen: nat, shown: nat, items: nat, r: Layout) {
    && ItemsShown(p, reserved) && Chosen(p, notices, chosen) && NoticesShown(p, reserved, notices[..chosen], shown)
    && ItemsLeft(p, reserved, notices[..shown], items)
    && var text := Render(p, items, notices[..shown]);
       r == if Fits(p, text) then Layout(text, items, shown) else Layout("", 0, 0)
  }

  ghost predicate LayoutOf(p: Page, notices: seq<string>, r: Layout) {
    exists reserved: nat, chosen: nat, shown: nat, items: nat :: Arranged(p, notices, reserved, chosen, shown, items, r)
  }

  /** The notices that fit block C, in order. */
  method ChooseNotices(p: Page, notices: seq<string>) returns (n: nat)
    ensures Chosen(p, notices, n)
  {
    n := 0;
    while n < |notices| && NoticesFit(p, notices[..n + 1])
      invariant n <= |notices| && forall k: nat :: 0 < k <= n ==> NoticesFit(p, notices[..k])
    {
      n := n + 1;
    }
  }

  method Arrange(p: Page, notices: seq<string>) returns (r: Layout)
    ensures LayoutOf(p, notices, r)
    ensures PrintsMost(p, notices, r)
  {
    var chosen := ChooseNotices(p, notices);
    var reserved: nat := |p.items|;
    while reserved > 0 && !BFits(p, reserved)
      invariant reserved <= |p.items| && forall k: nat :: reserved < k <= |p.items| ==> !BFits(p, k)
    {
      reserved := reserved - 1;
    }
    var shown := DropNotices(p, reserved, notices[..chosen]);
    assert notices[..chosen][..shown] == notices[..shown];
    var items := DropItems(p, reserved, notices[..shown]);
    var text := Render(p, items, notices[..shown]);
    r := if Fits(p, text) then Layout(text, items, shown) else Layout("", 0, 0);
    assert Arranged(p, notices, reserved, chosen, shown, items, r);
    ArrangedMeans(p, notices, r, reserved, chosen, shown, items);
  }

  /** Leave notices out until the page fits. */
  method DropNotices(p: Page, items: nat, notices: seq<string>) returns (n: nat)
    requires items <= |p.items|
    ensures NoticesShown(p, items, notices, n)
  {
    n := |notices|;
    while n > 0 && !Fits(p, Render(p, items, notices[..n]))
      invariant n <= |notices| && forall k: nat :: n < k <= |notices| ==> !Fits(p, Render(p, items, notices[..k]))
    {
      n := n - 1;
    }
  }

  /** Leave items out until the page fits. */
  method DropItems(p: Page, items: nat, notices: seq<string>) returns (n: nat)
    requires items <= |p.items|
    ensures ItemsLeft(p, items, notices, n)
  {
    n := items;
    while n > 0 && !Fits(p, Render(p, n, notices))
      invariant n <= items && forall k: nat :: n < k <= items ==> !Fits(p, Render(p, k, notices))
    {
      n := n - 1;
    }
  }

  /** With its share reserved, the page fits without any notice. */
  lemma ReservedFits(p: Page, items: nat)
    requires items <= |p.items|
    ensures BFits(p, items) ==> Fits(p, Render(p, items, []))
  {
  }

  lemma ShownOnce(p: Page, items: nat)
    requires ItemsShown(p, items)
    ensures forall k: nat :: ItemsShown(p, k) ==> k == items
  {
  }

  // ---- What the page says ----

  ghost function Written(lines: seq<string>): string {
    if lines == [] then "" else Written(lines[..|lines| - 1]) + lines[|lines| - 1] + "\n"
  }

  ghost function Ended(text: string): string {
    if text == "" then "" else text + "\n"
  }

  /** The list of items: the first ones, and how many were left out. */
  ghost function ItemList(p: Page, items: nat): string
    requires items <= |p.items|
  {
    if p.items == [] then ""
    else if items == |p.items| then "## 기억 목록\n" + Written(p.items) + "\n"
    else "## 기억 목록\n" + Written(p.items[..items]) + p.omittedLine(|p.items| - items) + "\n" + "\n"
  }

  ghost function NoticeList(notices: seq<string>): string {
    if notices == [] then "" else "## 변경 알림\n" + Written(notices) + "\n"
  }

  /** Pins, summary, items, notices and the last block, one newline between any two that are there. */
  ghost predicate Prints(p: Page, items: nat, notices: seq<string>, text: string)
    requires items <= |p.items|
  {
    var all := Ended(p.pins) + Ended(p.summary) + ItemList(p, items) + NoticeList(notices) + Ended(p.blockD);
    if all == "" then text == "" else text + "\n" == all
  }

  /** What is kept free for the notices: their budget, less for smaller limits. */
  ghost predicate Reserved(p: Page, tokens: nat, chars: nat) {
    && tokens == (if p.full && p.maxTokens < 1500 then 150 * p.maxTokens / 1500 else 150)
    && chars == if !p.full then p.maxChars else if p.maxChars < 9000 then 150 * p.maxChars / 1500 else 900
  }

  /** What the last block takes beyond its own share. */
  ghost function Beyond(p: Page): nat {
    var share := if p.maxTokens < 1500 then 30 * p.maxTokens / 1500 else 30;
    if |Words(p.blockD)| > share then |Words(p.blockD)| - share else 0
  }

  /** With `items` items and no notice the page leaves the reserve free. */
  ghost predicate LeavesReserve(p: Page, items: nat)
    requires items <= |p.items|
  {
    exists text, tokens, chars :: Prints(p, items, [], text) && Reserved(p, tokens, chars)
      && |Words(text)| + tokens <= p.maxTokens && |text| + 1 + chars <= p.maxChars
  }

  ghost predicate MostItems(p: Page, items: nat) {
    && items <= |p.items| && (items > 0 ==> LeavesReserve(p, items))
    && forall k: nat :: items < k <= |p.items| ==> !LeavesReserve(p, k)
  }

  ghost predicate PageFits(p: Page, items: nat, notices: seq<string>)
    requires items <= |p.items|
  {
    exists text :: Prints(p, items, notices, text) && |Words(text)| <= p.maxTokens && |text| <= p.maxChars
  }

  ghost predicate NoticesHaveRoom(p: Page, notices: seq<string>) {
    exists tokens, chars :: Reserved(p, tokens, chars)
      && |Words("## 변경 알림\n" + Written(notices))| + Beyond(p) <= tokens
      && |"## 변경 알림\n" + Written(notices)| <= chars
  }

  /** The leading notices as long as they have room in their block and fit the page. */
  ghost predicate MostNotices(p: Page, items: nat, notices: seq<string>, n: nat)
    requires items <= |p.items|
  {
    && n <= |notices| && (forall k: nat :: 0 < k <= n ==> NoticesHaveRoom(p, notices[..k]))
    && (n > 0 ==> PageFits(p, items, notices[..n]))
    && forall k: nat :: n < k <= |notices| ==>
      !PageFits(p, items, notices[..k]) || exists j: nat :: 0 < j <= k && !NoticesHaveRoom(p, notices[..j])
  }

  lemma {:induction false} LinesAreWritten(a: seq<string>, b: seq<string>)
    ensures Lines(a + b) == Lines(a) + Lines(b)
    ensures Lines(a) == Written(a)
  {
    if a == [] {
      assert a + b == b;
    } else {
      var front, last := a[..|a| - 1], a[|a| - 1];
      assert a == front + [last] && [last][1..] == [];
      LinesAreWritten(front, [last]);
      LinesSplit(a, b);
    }
  }

  lemma {:induction false} LinesSplit(a: seq<string>, b: seq<string>)
    ensures Lines(a + b) == Lines(a) + Lines(b)
  {
    if a == [] {
      assert a + b == b;
    } else {
      assert (a + b)[0] == a[0] && (a + b)[1..] == a[1..] + b;
      LinesSplit(a[1..], b);
    }
  }

  lemma {:induction false} JoinedLines(blocks: seq<string>)
    requires blocks != []
    ensures Join(blocks, "\n") + "\n" == Lines(blocks)
  {
    if |blocks| > 1 {
      JoinedLines(blocks[1..]);
    } else {
      assert blocks[1..] == [];
    }
  }

  lemma OneLine(text: string)
    ensures Lines([text]) == text + "\n"
  {
    assert [text][1..] == [];
  }

  lemma ItemsArePrinted(p: Page, items: nat)
    requires items <= |p.items|
    ensures Lines(BlockB(p, items)) == ItemList(p, items)
  {
    if p.items != [] {
      var omitted := |p.items| - items;
      var rest := if omitted > 0 then [p.omittedLine(omitted)] else [];
      LinesAreWritten(p.items[..items], rest);
      OneLine(Block(BLOCK_B_TITLE, p.items[..items] + rest));
      OneLine(p.omittedLine(omitted));
      assert omitted == 0 ==> p.items[..items] == p.items;
    }
  }

  lemma NoticesArePrinted(notices: seq<string>)
    ensures Lines(BlockC(notices)) == NoticeList(notices)
    ensures Block(BLOCK_C_TITLE, notices) == "## 변경 알림\n" + Written(notices)
  {
    LinesAreWritten(notices, []);
    OneLine(Block(BLOCK_C_TITLE, notices));
  }

  /** The rendered page is the printed one. */
  lemma RenderPrints(p: Page, items: nat, notices: seq<string>)
    requires items <= |p.items|
    ensures Prints(p, items, notices, Render(p, items, notices))
  {
    var a, s, b, c, d := Given(p.pins), Given(p.summary), BlockB(p, items), BlockC(notices), Given(p.blockD);
    OneLine(p.pins);
    OneLine(p.summary);
    OneLine(p.blockD);
    ItemsArePrinted(p, items);
    NoticesArePrinted(notices);
    LinesSplit(a, s);
    LinesSplit(a + s, b);
    LinesSplit(a + s + b, c);
    LinesSplit(a + s + b + c, d);
    if a + s + b + c + d != [] {
      JoinedLines(a + s + b + c + d);
    }
  }

  lemma PrintsOnce(p: Page, items: nat, notices: seq<string>, text: string)
    requires items <= |p.items| && Prints(p, items, notices, text)
    ensures text == Render(p, items, notices)
  {
    RenderPrints(p, items, notices);
    var other := Render(p, items, notices);
    assert text == (text + "\n")[..|text|] && other == (other + "\n")[..|other|];
  }

  lemma ReserveIsShare(p: Page)
    ensures Reserved(p, ShareOfC(p).0, ShareOfC(p).1)
    ensures NoticeTokens(p) + Beyond(p) == ShareOfC(p).0
  {
  }

  lemma LeavesReserveExactly(p: Page, items: nat)
    requires items <= |p.items|
    ensures LeavesReserve(p, items) <==> BFits(p, items)
  {
    ReserveIsShare(p);
    RenderPrints(p, items, []);
    forall text | Prints(p, items, [], text) ensures text == Render(p, items, []) {
      PrintsOnce(p, items, [], text);
    }
  }

  lemma PageFitsExactly(p: Page, items: nat, notices: seq<string>)
    requires items <= |p.items|
    ensures PageFits(p, items, notices) <==> Fits(p, Render(p, items, notices))
  {
    RenderPrints(p, items, notices);
    forall text | Prints(p, items, notices, text) ensures text == Render(p, items, notices) {
      PrintsOnce(p, items, notices, text);
    }
  }

  lemma RoomExactly(p: Page, notices: seq<string>)
    ensures NoticesHaveRoom(p, notices) <==> NoticesFit(p, notices)
  {
    ReserveIsShare(p);
    NoticesArePrinted(notices);
  }

  lemma ItemsShownAreMost(p: Page, items: nat)
    requires ItemsShown(p, items)
    ensures MostItems(p, items)
  {
    forall k: nat | k <= |p.items| ensures LeavesReserve(p, k) <==> BFits(p, k) {
      LeavesReserveExactly(p, k);
    }
  }

  lemma NoticesShownAreMost(p: Page, items: nat, notices: seq<string>, chosen: nat, n: nat)
    requires items <= |p.items| && Chosen(p, notices, chosen) && NoticesShown(p, items, notices[..chosen], n)
    ensures MostNotices(p, items, notices, n)
  {
    forall k: nat | k <= |notices| ensures NoticesHaveRoom(p, notices[..k]) <==> NoticesFit(p, notices[..k]) {
      RoomExactly(p, notices[..k]);
    }
    forall k: nat | k <= |notices|
      ensures PageFits(p, items, notices[..k]) <==> Fits(p, Render(p, items, notices[..k]))
    {
      PageFitsExactly(p, items, notices[..k]);
    }
    assert forall k: nat :: k <= chosen ==> notices[..chosen][..k] == notices[..k];
    forall k: nat | n < k <= |notices|
      ensures !PageFits(p, items, notices[..k]) || exists j: nat :: 0 < j <= k && !NoticesHaveRoom(p, notices[..j])
    {
      if k > chosen {
        assert !NoticesHaveRoom(p, notices[..chosen + 1]);
      }
    }
  }

  // ---- Leaving the notices out never makes the page longer ----

  function TokenSum(blocks: seq<string>): nat {
    if blocks == [] then 0 else Tokens(blocks[0]) + TokenSum(blocks[1..])
  }

  function LengthSum(blocks: seq<string>): nat {
    if blocks == [] then 0 else |blocks[0]| + 1 + LengthSum(blocks[1..])
  }

  lemma {:induction false} JoinedSize(blocks: seq<string>)
    ensures Tokens(Join(blocks, "\n")) == TokenSum(blocks)
    ensures blocks != [] ==> |Join(blocks, "\n")| + 1 == LengthSum(blocks)
  {
    if |blocks| > 1 {
      JoinedSize(blocks[1..]);
      SeparatedWords(blocks[0], "\n", Join(blocks[1..], "\n"));
    } else if |blocks| == 1 {
      assert blocks[1..] == [];
    }
  }

  lemma {:induction false} SumsJoin(a: seq<string>, b: seq<string>)
    ensures TokenSum(a + b) == TokenSum(a) + TokenSum(b) && LengthSum(a + b) == LengthSum(a) + LengthSum(b)
  {
    if a == [] {
      assert a + b == b;
    } else {
      assert (a + b)[1..] == a[1..] + b;
      SumsJoin(a[1..], b);
    }
  }

  lemma WithoutNotices(p: Page, items: nat, notices: seq<string>)
    requires items <= |p.items|
    ensures Fits(p, Render(p, items, notices)) ==> Fits(p, Render(p, items, []))
  {
    var front := Given(p.pins) + Given(p.summary) + BlockB(p, items);
    var c, d := BlockC(notices), Given(p.blockD);
    assert front + c + d == front + (c + d) && front + [] + d == front + d;
    JoinedSize(front + c + d);
    JoinedSize(front + d);
    SumsJoin(front + c, d);
    SumsJoin(front, c);
    SumsJoin(front, d);
  }

  /**
   * The last loop never leaves out an item that block B's reserve let in: what is shown, and whether anything is
   * printed, depends on the reserve alone.
   */
  lemma ReserveDecides(p: Page, notices: seq<string>, r: Layout, reserved: nat)
    requires LayoutOf(p, notices, r) && ItemsShown(p, reserved)
    ensures r.notices <= |notices| && Fits(p, r.text)
    ensures if Fits(p, Render(p, reserved, []))
      then r.items == reserved && r.text == Render(p, reserved, notices[..r.notices])
      else r == Layout("", 0, 0)
  {
    var was: nat, chosen: nat, shown: nat, items: nat :| Arranged(p, notices, was, chosen, shown, items, r);
    ShownOnce(p, was);
    ReservedFits(p, reserved);
    assert notices[..chosen][..shown] == notices[..shown] && notices[..0] == [];
    WithoutNotices(p, reserved, notices[..shown]);
    assert Words("") == [];
  }

  /** What is printed is within the limits: the most items that leave the reserve free, then the most notices. */
  ghost predicate PrintsMost(p: Page, notices: seq<string>, r: Layout) {
    && |Words(r.text)| <= p.maxTokens && |r.text| <= p.maxChars
    && MostItems(p, r.items) && MostNotices(p, r.items, notices, r.notices)
    && (Prints(p, r.items, notices[..r.notices], r.text) || (r == Layout("", 0, 0) && !PageFits(p, 0, [])))
  }

  /** What is arranged prints as many items as leave the reserve free, and then as many notices as there is room for. */
  lemma ArrangedMeans(p: Page, notices: seq<string>, r: Layout, reserved: nat, chosen: nat, shown: nat, items: nat)
    requires Arranged(p, notices, reserved, chosen, shown, items, r)
    ensures PrintsMost(p, notices, r)
  {
    ReserveDecides(p, notices, r, reserved);
    ReservedFits(p, reserved);
    ItemsShownAreMost(p, reserved);
    assert notices[..chosen][..shown] == notices[..shown] && notices[..0] == [];
    WithoutNotices(p, reserved, notices[..shown]);
    NoticesShownAreMost(p, reserved, notices, chosen, shown);
    RenderPrints(p, reserved, notices[..r.notices]);
    PageFitsExactly(p, reserved, []);
  }

  /**
   * Two notice lists, which is all that usage history can change, give the same items of block B, and either both a
   * page or both none; what is printed is within the limits.
   */
  lemma NoticesDoNotInterfere(p: Page, a: seq<string>, b: seq<string>, r: Layout, s: Layout)
    requires LayoutOf(p, a, r) && LayoutOf(p, b, s)
    ensures r.items == s.items && p.items[..r.items] == p.items[..s.items]
    ensures (r == Layout("", 0, 0) && s == Layout("", 0, 0))
      || (r.text == Render(p, r.items, a[..r.notices]) && s.text == Render(p, s.items, b[..s.notices]))
    ensures Fits(p, r.text) && Fits(p, s.text)
  {
    var reserved: nat, chosen: nat, shown: nat, items: nat :| Arranged(p, a, reserved, chosen, shown, items, r);
    ReserveDecides(p, a, r, reserved);
    ReserveDecides(p, b, s, reserved);
  }

  // ---- The project summary ----

  type Entries = seq<seq<string>>

  /** The brief, then each list that has pages under its title, then how many pages were left out. */
  function SummaryText(brief: Option<string>, lists: seq<Entries>, omitted: nat, omittedLine: nat -> string): string {
    Block(L3_TITLE, (if brief.Some? then [brief.value] else []) + ListLines(lists, L3_LIST_TITLES)
                    + if omitted > 0 then [omittedLine(omitted)] else [])
  }

  function ListLines(lists: seq<Entries>, titles: seq<string>): seq<string> {
    if lists == [] || titles == [] then []
    else (if lists[0] == [] then [] else [titles[0]] + Concat(lists[0])) + ListLines(lists[1..], titles[1..])
  }

  function Concat(entries: Entries): seq<string> {
    if entries == [] then [] else entries[0] + Concat(entries[1..])
  }

  function PageCount(lists: seq<Entries>): nat {
    if lists == [] then 0 else |lists[|lists| - 1]| + PageCount(lists[..|lists| - 1])
  }

  predicate Within(text: string, maxTokens: nat, maxChars: nat) {
    Tokens(text) <= maxTokens && |text| <= maxChars
  }

  /** The list to shorten next: the longest, the later one among equals. */
  predicate IsLongest(lists: seq<Entries>, i: nat) {
    && i < |lists| && (forall j :: 0 <= j < |lists| ==> |lists[j]| <= |lists[i]|)
    && forall j :: i < j < |lists| ==> |lists[j]| < |lists[i]|
  }

  /** `lists` is what is left of the given lists after dropping `n` pages, each from the end of the longest list. */
  ghost predicate Dropped(given: seq<Entries>, n: nat, lists: seq<Entries>) {
    if n == 0 then lists == given
    else exists was, i ::
      Dropped(given, n - 1, was) && IsLongest(was, i) && was[i] != [] && lists == was[i := was[i][..|was[i]| - 1]]
  }

  /** The order of dropping leaves no choice. */
  lemma {:induction false} DroppedUnique(given: seq<Entries>, n: nat, a: seq<Entries>, b: seq<Entries>)
    requires Dropped(given, n, a) && Dropped(given, n, b)
    ensures a == b
  {
    if n > 0 {
      var u, i :| Dropped(given, n - 1, u) && IsLongest(u, i) && u[i] != [] && a == u[i := u[i][..|u[i]| - 1]];
      var v, j :| Dropped(given, n - 1, v) && IsLongest(v, j) && v[j] != [] && b == v[j := v[j][..|v[j]| - 1]];
      DroppedUnique(given, n - 1, u, v);
      LongestOnce(u, i, j);
    }
  }

  lemma LongestOnce(lists: seq<Entries>, i: nat, j: nat)
    requires IsLongest(lists, i) && IsLongest(lists, j)
    ensures i == j
  {
    assert |lists[i]| <= |lists[j]| <= |lists[i]|;
  }

  /** Each list is what is left of the given one after dropping pages from its end. */
  ghost predicate PrefixesOf(lists: seq<Entries>, given: seq<Entries>) {
    |lists| == |given| && forall i :: 0 <= i < |lists| ==> lists[i] <= given[i]
  }

  /** Two shortened lists differ by at most one page. */
  ghost predicate Even(lists: seq<Entries>, given: seq<Entries>) {
    && |lists| == |given|
    && forall i, j :: 0 <= i < |lists| && 0 <= j < |lists| && |lists[i]| < |given[i]| ==> |lists[j]| <= |lists[i]| + 1
  }

  lemma LongestKeepsEven(given: seq<Entries>, was: seq<Entries>, i: nat)
    requires PrefixesOf(was, given) && Even(was, given) && IsLongest(was, i) && was[i] != []
    ensures var lists := was[i := was[i][..|was[i]| - 1]]; PrefixesOf(lists, given) && Even(lists, given)
  {
  }

  /** Dropping from the longest list keeps the lists even, and drops that many pages. */
  lemma {:induction false} DroppedIsEven(given: seq<Entries>, n: nat, lists: seq<Entries>)
    requires Dropped(given, n, lists)
    ensures PrefixesOf(lists, given) && Even(lists, given) && PageCount(lists) + n == PageCount(given)
  {
    if n > 0 {
      var was, i :| Dropped(given, n - 1, was) && IsLongest(was, i) && was[i] != []
        && lists == was[i := was[i][..|was[i]| - 1]];
      DroppedIsEven(given, n - 1, was);
      PageCountDrops(was, i);
      LongestKeepsEven(given, was, i);
    }
  }

  /** What is left after dropping `n` pages does not fit. */
  ghost predicate TooLong(given: seq<Entries>, fits: (seq<Entries>, nat) -> bool, n: nat) {
    forall lists :: Dropped(given, n, lists) ==> !fits(lists, n)
  }

  /** `n` pages were dropped, and no fewer would do. */
  ghost predicate Shortened(given: seq<Entries>, fits: (seq<Entries>, nat) -> bool, n: nat, lists: seq<Entries>) {
    Dropped(given, n, lists) && forall k: nat :: k < n ==> TooLong(given, fits, k)
  }

  lemma DropOne(given: seq<Entries>, n: nat, lists: seq<Entries>, i: nat)
    requires Dropped(given, n, lists) && IsLongest(lists, i) && lists[i] != []
    ensures Dropped(given, n + 1, lists[i := lists[i][..|lists[i]| - 1]])
  {
  }

  lemma NowTooLong(given: seq<Entries>, fits: (seq<Entries>, nat) -> bool, n: nat, lists: seq<Entries>)
    requires Dropped(given, n, lists) && !fits(lists, n)
    ensures TooLong(given, fits, n)
  {
    forall a | Dropped(given, n, a) ensures !fits(a, n) {
      DroppedUnique(given, n, a, lists);
    }
  }

  lemma OneMoreDropped(given: seq<Entries>, fits: (seq<Entries>, nat) -> bool, n: nat, lists: seq<Entries>, i: nat)
    requires Shortened(given, fits, n, lists) && IsLongest(lists, i) && lists[i] != [] && !fits(lists, n)
    ensures Shortened(given, fits, n + 1, lists[i := lists[i][..|lists[i]| - 1]])
  {
    DropOne(given, n, lists, i);
    NowTooLong(given, fits, n, lists);
  }

  datatype Summary = Summary(brief: Option<string>, given: seq<Entries>, maxTokens: nat, maxChars: nat, line: nat -> string)
  {
    function Text(lists: seq<Entries>, omitted: nat): string {
      SummaryText(brief, lists, omitted, line)
    }

    predicate Fits(lists: seq<Entries>, omitted: nat) {
      Within(Text(lists, omitted), maxTokens, maxChars)
    }
  }

  lemma {:induction false} PageCountDrops(lists: seq<Entries>, i: nat)
    requires i < |lists| && lists[i] != []
    ensures PageCount(lists[i := lists[i][..|lists[i]| - 1]]) + 1 == PageCount(lists)
  {
    var shorter := lists[i := lists[i][..|lists[i]| - 1]];
    var n := |lists| - 1;
    if i == n {
      assert shorter[..n] == lists[..n];
    } else {
      assert shorter[..n] == lists[..n][i := lists[i][..|lists[i]| - 1]];
      PageCountDrops(lists[..n], i);
    }
  }

  /** The maximum over list indices, by length and then by index. */
  method Longest(lists: seq<Entries>) returns (i: nat)
    requires lists != []
    ensures IsLongest(lists, i)
  {
    i := 0;
    for k := 1 to |lists|
      invariant i < k && forall j :: 0 <= j < k ==> |lists[j]| <= |lists[i]|
      invariant forall j :: i < j < k ==> |lists[j]| < |lists[i]|
    {
      if |lists[k]| >= |lists[i]| {
        i := k;
      }
    }
  }

  lemma {:induction false} NoPages(lists: seq<Entries>)
    ensures PageCount(lists) == 0 <==> forall i :: 0 <= i < |lists| ==> lists[i] == []
  {
    if lists != [] {
      var front := lists[..|lists| - 1];
      NoPages(front);
      assert forall i :: 0 <= i < |front| ==> front[i] == lists[i];
    }
  }

  /** One line after the other, entry by entry. */
  ghost function EntryText(entries: Entries): string {
    if entries == [] then "" else EntryText(entries[..|entries| - 1]) + Written(entries[|entries| - 1])
  }

  ghost function Section(title: string, entries: Entries): string {
    if entries == [] then "" else title + "\n" + EntryText(entries)
  }

  /** The brief, the three lists that have pages under their titles, and how many pages were left out. */
  ghost predicate Summarizes(v: Summary, lists: seq<Entries>, omitted: nat, text: string)
    requires |lists| == 3
  {
    text == "## 프로젝트 요약" + "\n" + (if v.brief.Some? then v.brief.value + "\n" else "")
      + Section("### 열린 일", lists[0]) + Section("### 현재 결정", lists[1]) + Section("### 교정·규칙", lists[2])
      + if omitted > 0 then v.line(omitted) + "\n" else ""
  }

  /** With `n` pages dropped the summary is over a limit. */
  ghost predicate TooLongWithout(v: Summary, n: nat) {
    forall lists, text :: Dropped(v.given, n, lists) && |lists| == 3 && Summarizes(v, lists, n, text) ==>
      |Words(text)| > v.maxTokens || |text| > v.maxChars
  }

  lemma {:induction false} EntriesAreWritten(entries: Entries)
    ensures Lines(Concat(entries)) == EntryText(entries)
  {
    if entries != [] {
      var front, last := entries[..|entries| - 1], entries[|entries| - 1];
      ConcatLast(front, last);
      assert entries == front + [last];
      EntriesAreWritten(front);
      LinesAreWritten(last, []);
      LinesSplit(Concat(front), last);
    }
  }

  lemma {:induction false} ConcatLast(front: Entries, last: seq<string>)
    ensures Concat(front + [last]) == Concat(front) + last
  {
    if front == [] {
      assert front + [last] == [last] && [last][1..] == [];
    } else {
      assert (front + [last])[1..] == front[1..] + [last];
      ConcatLast(front[1..], last);
    }
  }

  lemma SectionIs(title: string, entries: Entries)
    ensures Lines(if entries == [] then [] else [title] + Concat(entries)) == Section(title, entries)
  {
    EntriesAreWritten(entries);
    LinesSplit([title], Concat(entries));
    OneLine(title);
  }

  lemma ListsAreSections(lists: seq<Entries>, titles: seq<string>)
    requires |lists| == |titles| == 3
    ensures Lines(ListLines(lists, titles))
      == Section(titles[0], lists[0]) + (Section(titles[1], lists[1]) + Section(titles[2], lists[2]))
  {
    OneList(lists, titles);
    OneList(lists[1..], titles[1..]);
    assert lists[1..][1..] == lists[2..] && titles[1..][1..] == titles[2..];
    LastList(lists[2..], titles[2..]);
  }

  lemma LastList(lists: seq<Entries>, titles: seq<string>)
    requires |lists| == |titles| == 1
    ensures Lines(ListLines(lists, titles)) == Section(titles[0], lists[0])
  {
    OneList(lists, titles);
    assert lists[1..] == [] && Lines(ListLines([], titles[1..])) == "";
    NothingAfter(Section(titles[0], lists[0]));
  }

  lemma NothingAfter(text: string)
    ensures text + "" == text
  {
  }

  lemma OneList(lists: seq<Entries>, titles: seq<string>)
    requires lists != [] && titles != []
    ensures Lines(ListLines(lists, titles)) == Section(titles[0], lists[0]) + Lines(ListLines(lists[1..], titles[1..]))
  {
    SectionIs(titles[0], lists[0]);
    LinesSplit(if lists[0] == [] then [] else [titles[0]] + Concat(lists[0]), ListLines(lists[1..], titles[1..]));
  }

  lemma SummaryIs(v: Summary, lists: seq<Entries>, omitted: nat, text: string)
    requires |lists| == 3
    ensures Summarizes(v, lists, omitted, text) <==> text == v.Text(lists, omitted)
  {
    var brief := if v.brief.Some? then [v.brief.value] else [];
    var rest := if omitted > 0 then [v.line(omitted)] else [];
    var first := if v.brief.Some? then v.brief.value + "\n" else "";
    var last := if omitted > 0 then v.line(omitted) + "\n" else "";
    LineOrNothing(v.brief);
    LineOrNothing(if omitted > 0 then Some(v.line(omitted)) else None);
    BlockOfParts("## 프로젝트 요약", brief, lists, ["### 열린 일", "### 현재 결정", "### 교정·규칙"], rest, first, last);
  }

  lemma LineOrNothing(line: Option<string>)
    ensures Lines(if line.Some? then [line.value] else []) == if line.Some? then line.value + "\n" else ""
  {
    if line.Some? {
      OneLine(line.value);
    }
  }

  lemma BlockOfParts(title: string, brief: seq<string>, lists: seq<Entries>, titles: seq<string>, rest: seq<string>,
                     first: string, last: string)
    requires |lists| == |titles| == 3 && Lines(brief) == first && Lines(rest) == last
    ensures Block(title, brief + ListLines(lists, titles) + rest)
      == title + "\n" + first + Section(titles[0], lists[0]) + Section(titles[1], lists[1]) + Section(titles[2], lists[2]) + last
  {
    ListsAreSections(lists, titles);
    LinesSplit(brief + ListLines(lists, titles), rest);
    LinesSplit(brief, ListLines(lists, titles));
    Grouped(title + "\n", first, Section(titles[0], lists[0]), Section(titles[1], lists[1]), Section(titles[2], lists[2]), last);
  }

  lemma Grouped(a: string, b: string, c: string, d: string, e: string, f: string)
    ensures a + (b + (c + (d + e)) + f) == a + b + c + d + e + f
  {
    assert b + (c + (d + e)) == b + c + d + e;
  }

  lemma TooLongMeans(v: Summary, n: nat)
    requires TooLong(v.given, v.Fits, n)
    ensures TooLongWithout(v, n)
  {
    forall lists, text | Dropped(v.given, n, lists) && |lists| == 3 && Summarizes(v, lists, n, text)
      ensures |Words(text)| > v.maxTokens || |text| > v.maxChars
    {
      SummaryIs(v, lists, n, text);
    }
  }

  lemma ShortenedMeans(v: Summary, lists: seq<Entries>, n: nat)
    requires |v.given| == 3 && Shortened(v.given, v.Fits, n, lists)
    ensures |lists| == 3 && Summarizes(v, lists, n, v.Text(lists, n))
    ensures forall k: nat :: k < n ==> TooLongWithout(v, k)
    ensures !v.Fits(lists, n) ==> TooLongWithout(v, n)
  {
    DroppedIsEven(v.given, n, lists);
    SummaryIs(v, lists, n, v.Text(lists, n));
    forall k: nat | k < n ensures TooLongWithout(v, k) {
      TooLongMeans(v, k);
    }
    if !v.Fits(lists, n) {
      NowTooLong(v.given, v.Fits, n, lists);
      TooLongMeans(v, n);
    }
  }

  /**
   * The summary, dropping as few pages as make it fit, and counting what it leaves out; empty when there is nothing to
   * show or nothing fits.
   */
  method L3Text(v: Summary) returns (text: string, ghost lists: seq<Entries>, ghost n: nat)
    requires |v.given| == 3
    ensures |Words(text)| <= v.maxTokens || text == ""
    ensures |text| <= v.maxChars
    ensures |lists| == 3 && (text == "" || Summarizes(v, lists, n, text))
    ensures forall k: nat :: k < n ==> TooLongWithout(v, k)
    ensures text == "" ==> (v.brief.None? && v.given == [[], [], []]) || (TooLongWithout(v, n) && lists == [[], [], []])
    ensures Shortened(v.given, v.Fits, n, lists)
    ensures if v.brief.None? && PageCount(v.given) == 0 then n == 0 && text == ""
      else if v.Fits(lists, n) then text == v.Text(lists, n)
      else text == "" && PageCount(lists) == 0
  {
    NoPages(v.given);
    if v.brief.None? && forall i | 0 <= i < |v.given| :: v.given[i] == [] {
      assert v.given == [[], [], []];
      return "", v.given, 0;
    }
    var left, omitted := Shorten(v.given, v.Fits);
    lists, n := left, omitted;
    ShortenedMeans(v, lists, n);
    NoPages(lists);
    text := if v.Fits(left, omitted) then v.Text(left, omitted) else "";
  }

  /** Drop pages until the rest fits or nothing is left. */
  method Shorten(given: seq<Entries>, fits: (seq<Entries>, nat) -> bool) returns (left: seq<Entries>, omitted: nat)
    ensures Shortened(given, fits, omitted, left) && (fits(left, omitted) || PageCount(left) == 0)
  {
    left, omitted := given, 0;
    while !fits(left, omitted) && exists i | 0 <= i < |left| :: left[i] != []
      invariant Shortened(given, fits, omitted, left)
      decreases PageCount(left)
    {
      left := DropPage(given, fits, omitted, left);
      omitted := omitted + 1;
    }
    NoPages(left);
  }

  /** Drop the last page of the longest list. */
  method DropPage(ghost given: seq<Entries>, ghost fits: (seq<Entries>, nat) -> bool, ghost n: nat, lists: seq<Entries>)
    returns (left: seq<Entries>)
    requires Shortened(given, fits, n, lists) && !fits(lists, n)
    requires exists i :: 0 <= i < |lists| && lists[i] != []
    ensures Shortened(given, fits, n + 1, left) && |left| == |lists| && PageCount(left) < PageCount(lists)
  {
    var i := Longest(lists);
    OneMoreDropped(given, fits, n, lists, i);
    PageCountDrops(lists, i);
    left := lists[i := lists[i][..|lists[i]| - 1]];
  }

  // ---- The items of block B ----

  datatype Category = Question | Decision | Change

  function Cap(c: Category): nat {
    match c
    case Question => 8
    case Decision => 10
    case Change => 8
  }

  datatype Entry = Entry(category: Category, day: Id, place: Id, current: bool, pinned: bool, navigation: bool)

  function CountOf(entries: seq<Entry>, c: Category): nat {
    if entries == [] then 0
    else CountOf(entries[..|entries| - 1], c) + if entries[|entries| - 1].category == c then 1 else 0
  }

  /** The entries that come within the cap of their category. */
  function Capped(entries: seq<Entry>): seq<Entry> {
    if entries == [] then []
    else
      var front, last := entries[..|entries| - 1], entries[|entries| - 1];
      Capped(front) + if CountOf(front, last.category) < Cap(last.category) then [last] else []
  }

  lemma {:induction false} CappedCounts(entries: seq<Entry>, c: Category)
    ensures CountOf(Capped(entries), c) == if CountOf(entries, c) <= Cap(c) then CountOf(entries, c) else Cap(c)
  {
    if entries != [] {
      var front, last := entries[..|entries| - 1], entries[|entries| - 1];
      CappedCounts(front, c);
      CappedCounts(front, last.category);
      assert (Capped(front) + [last])[..|Capped(front)|] == Capped(front);
      assert Capped(front) + [] == Capped(front);
    }
  }

  ghost predicate Tallied(counts: map<Category, nat>, selected: seq<Entry>) {
    forall c :: (if c in counts then counts[c] else 0) == CountOf(selected, c)
  }

  lemma TallyOne(counts: map<Category, nat>, selected: seq<Entry>, e: Entry)
    requires Tallied(counts, selected)
    ensures Tallied(counts[e.category := CountOf(selected, e.category) + 1], selected + [e])
  {
    assert (selected + [e])[..|selected|] == selected;
  }

  lemma CappedStep(ordered: seq<Entry>, i: nat)
    requires i < |ordered|
    ensures var was := Capped(ordered[..i]);
      Capped(ordered[..i + 1])
      == if CountOf(was, ordered[i].category) < Cap(ordered[i].category) then was + [ordered[i]] else was
  {
    assert ordered[..i + 1][..i] == ordered[..i];
    CappedCounts(ordered[..i], ordered[i].category);
  }

  /** Take entries in order until their category is full. */
  method SelectItems(ordered: seq<Entry>) returns (selected: seq<Entry>)
    ensures selected == Capped(ordered)
  {
    selected := [];
    var counts: map<Category, nat> := map[];
    for i := 0 to |ordered|
      invariant selected == Capped(ordered[..i])
      invariant Tallied(counts, selected)
    {
      var e := ordered[i];
      CappedStep(ordered, i);
      var count := if e.category in counts then counts[e.category] else 0;
      if count < Cap(e.category) {
        TallyOne(counts, selected, e);
        counts := counts[e.category := count + 1];
        selected := selected + [e];
      }
    }
    assert ordered[..|ordered|] == ordered;
  }

  /** Current pages that are neither pinned, for these belong to block A, nor made for navigation. */
  predicate Listable(e: Entry) {
    e.current && !e.pinned && !e.navigation
  }

  function Listables(entries: seq<Entry>): seq<Entry> {
    if entries == [] then []
    else (if Listable(entries[0]) then [entries[0]] else []) + Listables(entries[1..])
  }

  predicate ByPlace(a: Entry, b: Entry) {
    a.place <= b.place
  }

  predicate NewestFirst(a: Entry, b: Entry) {
    a.day >= b.day
  }

  const Newer: (Entry, Entry) -> bool := ThenBy(NewestFirst, ByPlace)

  lemma {:induction false} ListablesAre(entries: seq<Entry>)
    ensures forall e :: e in Listables(entries) <==> e in entries && Listable(e)
  {
    if entries != [] {
      ListablesAre(entries[1..]);
      assert entries == [entries[0]] + entries[1..];
    }
  }

  lemma {:induction false} ListablesArePart(entries: seq<Entry>)
    ensures multiset(Listables(entries)) <= multiset(entries)
  {
    if entries != [] {
      ListablesArePart(entries[1..]);
      assert entries == [entries[0]] + entries[1..];
    }
  }

  lemma {:induction false} CappedKeepsOrder(ordered: seq<Entry>)
    requires Ordered(ordered, Newer)
    ensures Ordered(Capped(ordered), Newer)
    ensures forall e :: e in Capped(ordered) ==> e in ordered
  {
    if ordered != [] {
      var front, last := ordered[..|ordered| - 1], ordered[|ordered| - 1];
      assert ordered == front + [last];
      LastIsOldest(front, last);
      CappedKeepsOrder(front);
    }
  }

  /** What is left out came after a full share of its category. */
  lemma {:induction false} LeftOut(ordered: seq<Entry>, e: Entry)
    requires Ordered(ordered, Newer) && e in ordered && e !in Capped(ordered)
    ensures FullBefore(Capped(ordered), e)
  {
    var front, last := ordered[..|ordered| - 1], ordered[|ordered| - 1];
    assert ordered == front + [last];
    LastIsOldest(front, last);
    CappedKeepsOrder(front);
    if e in front {
      LeftOut(front, e);
      FullStays(front, last, e);
    } else {
      LastLeftOut(front, last);
    }
  }

  /** A full category takes no further entry. */
  lemma FullStays(front: seq<Entry>, last: Entry, e: Entry)
    requires FullBefore(Capped(front), e)
    ensures FullBefore(Capped(front + [last]), e)
  {
    assert (front + [last])[..|front|] == front;
    CappedCounts(front, e.category);
    CappedCounts(front + [last], e.category);
  }

  lemma LastIsOldest(front: seq<Entry>, last: Entry)
    requires Ordered(front + [last], Newer)
    ensures Ordered(front, Newer) && forall k :: k in front ==> Newer(k, last)
  {
    forall k | k in front ensures Newer(k, last) {
      var i :| 0 <= i < |front| && front[i] == k;
      assert (front + [last])[i] == k && (front + [last])[|front|] == last;
    }
    forall i, j | 0 <= i < j < |front| ensures Newer(front[i], front[j]) {
      assert (front + [last])[i] == front[i] && (front + [last])[j] == front[j];
    }
  }

  lemma NewerMeans(a: Entry, b: Entry)
    ensures Newer(a, b) <==> IsListedBefore(a, b)
  {
    assert ThenBy(NewestFirst, ByPlace)(a, b) <==> NewestFirst(a, b) && (NewestFirst(b, a) ==> ByPlace(a, b));
  }

  lemma LastLeftOut(front: seq<Entry>, last: Entry)
    requires last !in Capped(front + [last])
    requires forall k :: k in Capped(front) ==> Newer(k, last)
    ensures FullBefore(Capped(front + [last]), last)
  {
    assert (front + [last])[..|front|] == front && (front + [last])[..|front| + 1] == front + [last];
    forall k | k in Capped(front) ensures IsListedBefore(k, last) {
      NewerMeans(k, last);
    }
    CappedStep(front + [last], |front|);
    assert last in Capped(front) + [last];
    CappedCounts(front, last.category);
  }

  /**
   * The listed memories; no usage is read. They are listable, newest first, and one that is left out has a full share
   * of its category listed before it.
   */
  method BlockBItems(entries: seq<Entry>) returns (selected: seq<Entry>)
    ensures forall i, j :: 0 <= i < j < |selected| ==> IsListedBefore(selected[i], selected[j])
    ensures multiset(selected) <= multiset(entries)
    ensures forall e :: e in selected ==> e in entries && e.current && !e.pinned && !e.navigation
    ensures forall c :: CountOf(selected, c) <= if c == Decision then 10 else 8
    ensures forall e :: e in entries && e.current && !e.pinned && !e.navigation && e !in selected ==> FullBefore(selected, e)
  {
    var current := SortBy(Listables(entries), ByPlace);
    var ordered := SortBy(current, NewestFirst);
    SortedTwice(Listables(entries));
    ListablesAre(entries);
    ListablesArePart(entries);
    selected := SelectItems(ordered);
    CappedMeans(ordered);
  }

  lemma CappedMeans(ordered: seq<Entry>)
    requires Ordered(ordered, Newer)
    ensures forall i, j :: 0 <= i < j < |Capped(ordered)| ==> IsListedBefore(Capped(ordered)[i], Capped(ordered)[j])
    ensures multiset(Capped(ordered)) <= multiset(ordered) && forall e :: e in Capped(ordered) ==> e in ordered
    ensures forall c :: CountOf(Capped(ordered), c) <= if c == Decision then 10 else 8
    ensures forall e :: e in ordered && e !in Capped(ordered) ==> FullBefore(Capped(ordered), e)
  {
    CappedKeepsOrder(ordered);
    CappedIsPart(ordered);
    InOrder(Capped(ordered));
    forall c ensures CountOf(Capped(ordered), c) <= Cap(c) {
      CappedCounts(ordered, c);
    }
    forall e | e in ordered && e !in Capped(ordered) ensures FullBefore(Capped(ordered), e) {
      LeftOut(ordered, e);
    }
  }

  lemma InOrder(entries: seq<Entry>)
    requires Ordered(entries, Newer)
    ensures forall i, j :: 0 <= i < j < |entries| ==> IsListedBefore(entries[i], entries[j])
  {
    forall i, j | 0 <= i < j < |entries| ensures IsListedBefore(entries[i], entries[j]) {
      NewerMeans(entries[i], entries[j]);
    }
  }

  lemma SortedTwice(entries: seq<Entry>)
    ensures var ordered := SortBy(SortBy(entries, ByPlace), NewestFirst);
      && Ordered(ordered, Newer) && multiset(ordered) == multiset(entries)
      && forall e :: e in ordered <==> e in entries
  {
    SortByCorrect(entries, ByPlace);
    SortByCorrect(SortBy(entries, ByPlace), NewestFirst);
    SortIsStable(SortBy(entries, ByPlace), NewestFirst, ByPlace);
  }

  lemma {:induction false} CappedIsPart(entries: seq<Entry>)
    ensures multiset(Capped(entries)) <= multiset(entries)
  {
    if entries != [] {
      var front, last := entries[..|entries| - 1], entries[|entries| - 1];
      CappedIsPart(front);
      assert entries == front + [last];
    }
  }

  ghost predicate FullBefore(selected: seq<Entry>, e: Entry) {
    && CountOf(selected, e.category) == (if e.category == Decision then 10 else 8)
    && forall k :: k in selected && k.category == e.category ==> IsListedBefore(k, e)
  }

  /** Newer, or as new and not later by Vault and path. */
  ghost predicate IsListedBefore(a: Entry, b: Entry) {
    a.day > b.day || (a.day == b.day && a.place <= b.place)
  }
}
