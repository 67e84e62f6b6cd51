/**
 * The symbol toolbar of the LaTeX editor (components/math-editor.tsx): the
 * symbol table, its category tabs, and splicing a symbol into the text at
 * the cursor.
 */
module MathEditor {
  import opened Wrappers
  import opened JsStrings
  import opened Seqs

  datatype MathSymbol = MathSymbol(symbol: string, caption: string, category: string)

  /** The toolbar's table, in display order. */
  const MathSymbols: seq<MathSymbol> := [
    MathSymbol("\\frac{a}{b}", "分数", "基础"),
    MathSymbol("\\sqrt{x}", "平方根", "基础"),
    MathSymbol("x^{2}", "上标", "基础"),
    MathSymbol("x_{1}", "下标", "基础"),
    MathSymbol("\\sum_{i=1}^{n}", "求和", "运算"),
    MathSymbol("\\int_{a}^{b}", "积分", "运算"),
    MathSymbol("\\lim_{x \\to 0}", "极限", "运算"),
    MathSymbol("\\sin", "正弦", "函数"),
    MathSymbol("\\cos", "余弦", "函数"),
    MathSymbol("\\log", "对数", "函数"),
    MathSymbol("\\alpha", "α", "希腊字母"),
    MathSymbol("\\beta", "β", "希腊字母"),
    MathSymbol("\\pi", "π", "希腊字母"),
    MathSymbol("\\theta", "θ", "希腊字母"),
    MathSymbol("\\leq", "≤", "符号"),
    MathSymbol("\\geq", "≥", "符号"),
    MathSymbol("\\neq", "≠", "符号"),
    MathSymbol("\\pm", "±", "符号")
  ]

  /**
   * `selectionStart || value.length`: a missing selection start and a
   * selection start of 0 (both falsy) put the cursor at the end.
   */
  function CursorPosition(value: string, selectionStart: Option<nat>): (p: nat)
    ensures selectionStart.None? || selectionStart == Some(0) ==> p == |value|
    ensures selectionStart.Some? && selectionStart.value != 0 ==> p == selectionStart.value
  {
    match selectionStart
    case None => |value|
    case Some(n) => if n == 0 then |value| else n
  }

  /**
   * `value.slice(0, p) + symbol + value.slice(p)`: the symbol lands at the
   * cursor (or at the end when the cursor lies past it), with the text before
   * and after the cursor kept around it.
   */
  function InsertSymbol(value: string, symbol: string, selectionStart: Option<nat>): (r: string)
    ensures var p := if CursorPosition(value, selectionStart) <= |value|
                     then CursorPosition(value, selectionStart) else |value|;
            r == value[..p] + symbol + value[p..]
    ensures |r| == |value| + |symbol|
  {
    var p := CursorPosition(value, selectionStart);
    Slice(value, 0, p) + symbol + Slice(value, p, |value|)
  }

  /** With no selection, or the cursor at 0, the symbol is appended. */
  lemma InsertAtEnd(value: string, symbol: string, selectionStart: Option<nat>)
    requires selectionStart.None? || selectionStart == Some(0)
    ensures InsertSymbol(value, symbol, selectionStart) == value + symbol
  {
    assert value[..|value|] == value;
  }

  /** Cutting the inserted symbol out again gives the text back. */
  lemma InsertThenCut(value: string, symbol: string, selectionStart: Option<nat>)
    ensures var p := if CursorPosition(value, selectionStart) <= |value|
                     then CursorPosition(value, selectionStart) else |value|;
            var r := InsertSymbol(value, symbol, selectionStart);
            r[p..p + |symbol|] == symbol && r[..p] + r[p + |symbol|..] == value
  {
    var p := if CursorPosition(value, selectionStart) <= |value|
             then CursorPosition(value, selectionStart) else |value|;
    var r := InsertSymbol(value, symbol, selectionStart);
    assert r[..p] == value[..p];
    assert r[p + |symbol|..] == value[p..];
  }

  /** `table.map(s => s.category)` */
  function CategoryColumn(table: seq<MathSymbol>): (col: seq<string>)
    ensures |col| == |table|
    ensures forall i :: 0 <= i < |table| ==> col[i] == table[i].category
  {
    seq(|table|, i requires 0 <= i < |table| => table[i].category)
  }

  /**
   * `[...new Set(table.map(s => s.category))]`: every category once, each
   * symbol's category among them, in the order the categories first appear
   * in the table.
   */
  function Categories(table: seq<MathSymbol>): (cs: seq<string>)
    ensures NoDuplicates(cs)
    ensures forall i :: 0 <= i < |table| ==> table[i].category in cs
    ensures forall c :: c in cs ==> exists i :: 0 <= i < |table| && table[i].category == c
    ensures forall i, j :: 0 <= i < j < |cs| ==>
              IndexOf(CategoryColumn(table), cs[i]) < IndexOf(CategoryColumn(table), cs[j])
  {
    var col := CategoryColumn(table);
    var cs := Dedup(col);
    assert forall c :: c in cs ==> c in col;
    cs
  }

  /** `table.filter(s => s.category === category)`: one tab's buttons. */
  function SymbolsIn(table: seq<MathSymbol>, category: string): seq<MathSymbol> {
    Filter(table, (s: MathSymbol) => s.category == category)
  }

  /**
   * A tab lists exactly the table's symbols of its category, each as often
   * as in the table, in table order; and a tab of a listed category is
   * never empty.
   */
  lemma TabListsCategory(table: seq<MathSymbol>, category: string)
    ensures forall s: MathSymbol :: s in SymbolsIn(table, category) ==> s.category == category && s in table
    ensures forall s: MathSymbol :: s.category == category ==>
              multiset(SymbolsIn(table, category))[s] == multiset(table)[s]
    ensures IsSubsequence(SymbolsIn(table, category), table)
    ensures category in Categories(table) ==> SymbolsIn(table, category) != []
  {
    FilterKeeps(table, (s: MathSymbol) => s.category == category);
    if category in Categories(table) {
      var i :| 0 <= i < |table| && table[i].category == category;
      assert table[i] in multiset(table);
    }
  }

  /** The toolbar opens on the first tab, `categories[0]`, which is "基础", the first symbol's category. */
  lemma ToolbarFirstTab()
    ensures |Categories(MathSymbols)| > 0 && Categories(MathSymbols)[0] == "基础"
  {
    var col, cs := CategoryColumn(MathSymbols), Categories(MathSymbols);
    assert col[0] == "基础" && IndexOf(col, "基础") == 0;
    var j :| 0 <= j < |cs| && cs[j] == "基础";
  }
}
