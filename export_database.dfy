/**
 * The SQL text the database export writes: string literals escaped by the rule of
 * ISO/IEC 9075 (a quote inside a character string literal is written twice), one
 * `INSERT` statement per row, and the seed-mode renderers for categories, question
 * templates and punishment templates.
 */
module ExportDatabase {
  import opened Wrappers
  import opened Seqs
  import opened Schema

  // ---------------------------------------------------------------- escapeSql

  /** The number of quote characters in `s`. */
  function Quotes(s: string): nat {
    if s == [] then 0 else (if s[0] == '\'' then 1 else 0) + Quotes(s[1..])
  }

  /** A JavaScript string value that is truthy: present and not empty. */
  predicate Present(s: Option<string>) { s.Some? && s.value != [] }

  /** `str.replace(/'/g, "''")`: every quote doubled. */
  function Escape(s: string): (r: string)
    ensures |r| == |s| + Quotes(s)
  {
    if s == [] then [] else (if s[0] == '\'' then "''" else [s[0]]) + Escape(s[1..])
  }

  /** `escapeSql`: the empty string for a falsy argument (null, undefined, ''), else every quote doubled. */
  function EscapeSql(s: Option<string>): (r: string)
    ensures !Present(s) ==> r == []
    ensures Present(s) ==> |r| == |s.value| + Quotes(s.value)
  {
    if !Present(s) then "" else Escape(s.value)
  }

  /** Escaping works character by character. */
  lemma {:induction false} EscapeConcat(a: string, b: string)
    ensures Escape(a + b) == Escape(a) + Escape(b)
  {
    if a != [] {
      var piece := if a[0] == '\'' then "''" else [a[0]];
      assert (a + b)[0] == a[0] && (a + b)[1..] == a[1..] + b;
      assert Escape(a + b) == piece + Escape(a[1..] + b);
      EscapeConcat(a[1..], b);
      AppendAssociative(piece, Escape(a[1..]), Escape(b));
    } else {
      assert a + b == b;
    }
  }

  /** Characters other than the quote are left as they are. */
  lemma {:induction false} EscapeQuoteFree(s: string)
    requires '\'' !in s
    ensures Escape(s) == s
  {
    if s != [] {
      assert s[0] in s;
      assert forall c :: c in s[1..] ==> c in s;
      EscapeQuoteFree(s[1..]);
    }
  }

  /** The body of a well-formed SQL string literal: each quote is one of a pair. */
  predicate WellQuoted(r: string)
    decreases |r|
  {
    r == [] || if r[0] == '\'' then |r| >= 2 && r[1] == '\'' && WellQuoted(r[2..]) else WellQuoted(r[1..])
  }

  /** Reading a literal body: each doubled quote collapsed back to one. */
  function Unescape(r: string): string
    decreases |r|
  {
    if r == [] then []
    else if r[0] == '\'' && |r| >= 2 && r[1] == '\'' then "'" + Unescape(r[2..])
    else [r[0]] + Unescape(r[1..])
  }

  /** What escaping produces is always a well-formed literal body. */
  lemma {:induction false} EscapeWellQuoted(s: string)
    ensures WellQuoted(Escape(s))
  {
    if s != [] {
      EscapeWellQuoted(s[1..]);
      var r := Escape(s);
      if s[0] == '\'' {
        assert r[2..] == Escape(s[1..]);
      } else {
        assert r[1..] == Escape(s[1..]);
      }
    }
  }

  /** Collapsing the doubled quotes recovers the escaped string. */
  lemma {:induction false} EscapeRoundTrip(s: string)
    ensures Unescape(Escape(s)) == s
  {
    if s != [] {
      EscapeRoundTrip(s[1..]);
      var r := Escape(s);
      if s[0] == '\'' {
        assert r[2..] == Escape(s[1..]);
      } else {
        assert r[1..] == Escape(s[1..]);
      }
    }
  }

  /** And every well-formed literal body is the escape of what it reads as. */
  lemma {:induction false} UnescapeRoundTrip(r: string)
    requires WellQuoted(r)
    ensures Escape(Unescape(r)) == r
  {
    if r != [] {
      if r[0] == '\'' {
        UnescapeRoundTrip(r[2..]);
        assert r == "''" + r[2..];
      } else {
        UnescapeRoundTrip(r[1..]);
        assert r == [r[0]] + r[1..];
      }
    }
  }

  // ---------------------------------------------------------------- numbers

  /** The decimal digits of `n`, as JavaScript prints an integral number. */
  function Digits(n: nat): (r: string)
    ensures IsDigits(r)
    decreases n
  {
    var last := [('0' as int + n % 10) as char];
    if n < 10 then last else Digits(n / 10) + last
  }

  predicate IsDigits(s: string) {
    |s| >= 1 && forall i :: 0 <= i < |s| ==> '0' <= s[i] <= '9'
  }

  /** The number a digit string denotes. */
  function DigitsValue(s: string): nat
    requires forall i :: 0 <= i < |s| ==> '0' <= s[i] <= '9'
    decreases |s|
  {
    if s == [] then 0 else DigitsValue(s[..|s| - 1]) * 10 + (s[|s| - 1] as int - '0' as int)
  }

  /** An integer as a template literal or `String()` prints it. */
  function Decimal(n: int): (r: string)
    ensures |r| > 0 && (r[0] == '-' <==> n < 0)
    ensures n >= 0 ==> IsDigits(r)
  {
    if n < 0 then "-" + Digits(-n) else Digits(n)
  }

  lemma {:induction false} DigitsRoundTrip(n: nat)
    ensures DigitsValue(Digits(n)) == n
    decreases n
  {
    if n >= 10 {
      DigitsRoundTrip(n / 10);
      var r := Digits(n);
      assert r[..|r| - 1] == Digits(n / 10);
    }
  }

  // ---------------------------------------------------------------- values

  /**
   * A column value as the `pg` driver hands it over. `Text` stands for every other
   * value, `String(value)` being its text; a `Date` carries its `toISOString()` text.
   */
  datatype Value = Null | Undefined | Bool(b: bool) | Num(n: int) | Date(iso: string) | Text(s: string)

  /** The mapped value in `generateInsert`: NULL, true/false, the number, or a quoted literal. */
  function RenderValue(v: Value): (r: string)
    ensures r == "NULL" <==> v.Null? || v.Undefined?
    ensures (|r| > 0 && r[0] == '\'') <==> v.Date? || v.Text?
  {
    match v
    case Null => "NULL"
    case Undefined => "NULL"
    case Bool(b) => if b then "true" else "false"
    case Num(n) => Decimal(n)
    case Date(iso) => "'" + iso + "'"
    case Text(s) => "'" + EscapeSql(Some(s)) + "'"
  }

  /** How a database reads a literal back: NULL, a boolean, an integer or a string. */
  function ParseLiteral(s: string): Option<Value> {
    if s == "NULL" then Some(Null)
    else if s == "true" then Some(Bool(true))
    else if s == "false" then Some(Bool(false))
    else if |s| >= 2 && s[0] == '\'' && s[|s| - 1] == '\'' && WellQuoted(s[1..|s| - 1]) then Some(Text(Unescape(s[1..|s| - 1])))
    else if IsDigits(s) then Some(Num(DigitsValue(s)))
    else if |s| >= 2 && s[0] == '-' && IsDigits(s[1..]) then Some(Num(-(DigitsValue(s[1..]) as int)))
    else None
  }

  /** What a value stands for once in the database: undefined is NULL, a date is its ISO text. */
  function Denoted(v: Value): Value {
    match v
    case Undefined => Null
    case Date(iso) => Text(iso)
    case _ => v
  }

  /** An ISO date text holds no quote. */
  predicate Renderable(v: Value) { v.Date? ==> '\'' !in v.iso }

  /** Every rendered value reads back as the value it denotes. */
  lemma RenderValueRoundTrip(v: Value)
    requires Renderable(v)
    ensures ParseLiteral(RenderValue(v)) == Some(Denoted(v))
  {
    match v
    case Num(n) =>
      NumberLiteral(n);
    case Date(iso) =>
      EscapeQuoteFree(iso);
      TextLiteral(iso);
    case Text(s) =>
      TextLiteral(s);
    case _ =>
  }

  /** A printed integer reads back as that integer. */
  lemma {:induction false} NumberLiteral(n: int)
    ensures ParseLiteral(Decimal(n)) == Some(Num(n))
  {
    var r := Decimal(n);
    if n < 0 {
      DigitsRoundTrip(-n);
      var d := Digits(-n);
      assert r == "-" + d;
      assert r[1..] == d;
      assert r != "NULL" && r != "true" && r != "false" by { assert r[0] == '-'; }
      assert !IsDigits(r) by { assert r[0] == '-'; }
    } else {
      DigitsRoundTrip(n);
      assert '0' <= r[0] <= '9';
      assert r != "NULL" && r != "true" && r != "false";
    }
  }

  /** A quoted, escaped string reads back as that string. */
  lemma TextLiteral(s: string)
    ensures ParseLiteral("'" + Escape(s) + "'") == Some(Text(s))
  {
    var r := "'" + Escape(s) + "'";
    assert r[1..|r| - 1] == Escape(s);
    EscapeWellQuoted(s);
    EscapeRoundTrip(s);
  }

  // ---------------------------------------------------------------- generateInsert

  /** One key of a row object, in key order, with its value. */
  datatype Field = Field(column: string, value: Value)

  predicate Included(exclude: seq<string>, f: Field) { f.column !in exclude }

  /** The fields `generateInsert` writes: those whose column is not excluded, in key order. */
  function Kept(row: seq<Field>, exclude: seq<string>): (r: seq<Field>)
    ensures forall f :: f in r <==> f in row && f.column !in exclude
  {
    Filter(row, f => Included(exclude, f))
  }

  /** `Object.keys(row).filter(...)`. */
  function Columns(row: seq<Field>, exclude: seq<string>): (r: seq<string>)
    ensures |r| == |Kept(row, exclude)|
  {
    var kept := Kept(row, exclude);
    seq(|kept|, i requires 0 <= i < |kept| => kept[i].column)
  }

  /** `columns.map(...)`: one rendered value per column. */
  function Values(row: seq<Field>, exclude: seq<string>): (r: seq<string>)
    ensures |r| == |Kept(row, exclude)|
  {
    var kept := Kept(row, exclude);
    seq(|kept|, i requires 0 <= i < |kept| => RenderValue(kept[i].value))
  }

  /** `array.join(sep)`. */
  function JoinWith(xs: seq<string>, sep: string): string
    decreases |xs|
  {
    if xs == [] then "" else if |xs| == 1 then xs[0] else xs[0] + sep + JoinWith(xs[1..], sep)
  }

  /** `generateInsert`: `INSERT INTO t (c1, c2) VALUES (v1, v2);` and a newline. */
  function GenerateInsert(table: string, row: seq<Field>, exclude: seq<string>): (r: string)
    ensures "INSERT INTO " + table + " (" <= r
    ensures |r| >= 3 && r[|r| - 3..] == ");\n"
  {
    var head := "INSERT INTO " + table + " (";
    var r := head + (JoinWith(Columns(row, exclude), ", ") + ") VALUES (" + JoinWith(Values(row, exclude), ", ") + ");\n");
    assert r[|r| - 3..] == ");\n";
    r
  }

  /** The column list holds exactly the row's keys that are not excluded. */
  lemma InsertColumns(row: seq<Field>, exclude: seq<string>, c: string)
    ensures c in Columns(row, exclude) <==> c !in exclude && exists f :: f in row && f.column == c
  {
    var kept := Kept(row, exclude);
    if c in Columns(row, exclude) {
      var i :| 0 <= i < |kept| && Columns(row, exclude)[i] == c;
      assert kept[i] in kept;
    }
    if c !in exclude && exists f :: f in row && f.column == c {
      var f :| f in row && f.column == c;
      var i :| 0 <= i < |kept| && kept[i] == f;
      assert Columns(row, exclude)[i] == c;
    }
  }

  /** Columns keep the row's key order: the columns of `a + b` are those of `a`, then those of `b`. */
  lemma InsertColumnsInOrder(a: seq<Field>, b: seq<Field>, exclude: seq<string>)
    ensures Columns(a + b, exclude) == Columns(a, exclude) + Columns(b, exclude)
  {
    FilterConcat(a, b, f => Included(exclude, f));
  }

  /**
   * One value per listed column, in the same order: the `i`-th value is the rendering
   * of the value of the `i`-th kept field, whose column is the `i`-th column, and it
   * reads back as what that value denotes.
   */
  lemma InsertValues(row: seq<Field>, exclude: seq<string>)
    requires forall f :: f in row ==> Renderable(f.value)
    ensures |Values(row, exclude)| == |Columns(row, exclude)|
    ensures forall i :: 0 <= i < |Columns(row, exclude)| ==>
      var f := Kept(row, exclude)[i];
      && f in row && f.column !in exclude
      && Columns(row, exclude)[i] == f.column
      && Values(row, exclude)[i] == RenderValue(f.value)
      && ParseLiteral(Values(row, exclude)[i]) == Some(Denoted(f.value))
  {
    var kept := Kept(row, exclude);
    forall i | 0 <= i < |kept|
      ensures ParseLiteral(RenderValue(kept[i].value)) == Some(Denoted(kept[i].value))
    {
      assert kept[i] in kept;
      RenderValueRoundTrip(kept[i].value);
    }
  }

  // ---------------------------------------------------------------- seed mode

  /** A row of `punishment_templates`. */
  datatype PunishmentTemplate = PunishmentTemplate(id: nat, text: string, durationQuestions: Option<int>, icon: Option<string>)

  /** `cat.category_type || 'buzzer'`. */
  function CategoryType(c: Category): (r: string)
    ensures r != []
    ensures Present(c.categoryType) ==> r == c.categoryType.value
  {
    if Present(c.categoryType) then c.categoryType.value else "buzzer"
  }

  const CategoryInsertHead := "INSERT INTO categories (name, icon, description, category_type) VALUES ('"

  /** The seed statement of one category. The category type is written without escaping. */
  function CategoryInsert(c: Category): (r: string)
    ensures CategoryInsertHead + EscapeSql(Some(c.name)) + "', '" <= r
    ensures var tail := "', '" + CategoryType(c) + "');\n"; |tail| <= |r| && r[|r| - |tail|..] == tail
  {
    var head := CategoryInsertHead + EscapeSql(Some(c.name)) + "', '";
    var tail := "', '" + CategoryType(c) + "');\n";
    var middle := EscapeSql(c.icon) + "', '" + (if Present(c.description) then EscapeSql(c.description) else "");
    var r := head + (middle + tail);
    assert r[|r| - |tail|..] == tail;
    r
  }

  /** A quoted `escapeSql` argument reads back as its text, and a falsy one as the empty text. */
  lemma EscapeSqlReadsBack(s: Option<string>)
    ensures ParseLiteral("'" + EscapeSql(s) + "'") == Some(Text(if Present(s) then s.value else ""))
  {
    if Present(s) {
      TextLiteral(s.value);
    } else {
      TextLiteral("");
    }
  }

  /**
   * Between the name and the type a seed category statement holds the escaped icon
   * and then the escaped description, each a literal that reads back as that field.
   */
  lemma CategoryInsertFields(c: Category)
    ensures var head := CategoryInsertHead + EscapeSql(Some(c.name)) + "', '";
      var tail := "', '" + CategoryType(c) + "');\n";
      CategoryInsert(c) == head + (EscapeSql(c.icon) + "', '" + EscapeSql(c.description) + tail)
    ensures ParseLiteral("'" + EscapeSql(Some(c.name)) + "'") == Some(Text(c.name))
    ensures ParseLiteral("'" + EscapeSql(c.icon) + "'") == Some(Text(if Present(c.icon) then c.icon.value else ""))
    ensures ParseLiteral("'" + EscapeSql(c.description) + "'") ==
      Some(Text(if Present(c.description) then c.description.value else ""))
  {
    EscapeSqlReadsBack(Some(c.name));
    EscapeSqlReadsBack(c.icon);
    EscapeSqlReadsBack(c.description);
  }

  /**
   * A seed category without a description is written as one with an empty
   * description, and one without a type (or with an empty one) as one of type 'buzzer'.
   */
  lemma CategoryDefaults(c: Category)
    ensures !Present(c.description) ==> CategoryInsert(c) == CategoryInsert(c.(description := Some("")))
    ensures !Present(c.categoryType) ==> CategoryInsert(c) == CategoryInsert(c.(categoryType := Some("buzzer")))
  {
  }

  /** `categories.find(c => c.id === q.category_id)?.name || ''`. */
  function CategoryNameFor(categories: seq<Category>, id: nat): (r: string)
    ensures r == [] || exists c :: c in categories && c.id == id && c.name == r
    ensures (forall c :: c in categories ==> c.id != id) ==> r == []
    ensures (exists c :: c in categories && c.id == id) ==>
      exists i :: 0 <= i < |categories| && categories[i].id == id && r == categories[i].name &&
        forall j :: 0 <= j < i ==> categories[j].id != id
  {
    match First(categories, CategoryIdIs(id))
    case None => ""
    case Some(c) =>
      FirstIsEarliest(categories, CategoryIdIs(id));
      c.name
  }

  /** The image literal of a seed question: the quoted URL, or NULL when it is missing or empty. */
  function ImageLiteral(imageUrl: Option<string>): string {
    if Present(imageUrl) then "'" + EscapeSql(imageUrl) + "'" else "NULL"
  }

  /** The image literal reads back as the URL, or as NULL when the URL is missing or empty. */
  lemma ImageLiteralReadsBack(imageUrl: Option<string>)
    ensures ParseLiteral(ImageLiteral(imageUrl)) == Some(if Present(imageUrl) then Text(imageUrl.value) else Null)
  {
    if Present(imageUrl) {
      TextLiteral(imageUrl.value);
    }
  }

  const TemplateInsertHead := "INSERT INTO question_templates (category_id, question_text, image_url) \nVALUES ((SELECT id FROM categories WHERE name = '"

  /** The seed statements of one question template: a comment naming its category, then the insert. */
  function TemplateInsert(categories: seq<Category>, q: QuestionTemplate): (r: string)
    ensures var catName := CategoryNameFor(categories, q.categoryId);
      "-- " + catName + "\n" + TemplateInsertHead + EscapeSql(Some(catName)) + "'), '" <= r
    ensures var tail := ImageLiteral(q.imageUrl) + ");\n\n"; |tail| <= |r| && r[|r| - |tail|..] == tail
  {
    var catName := CategoryNameFor(categories, q.categoryId);
    var head := "-- " + catName + "\n" + TemplateInsertHead + EscapeSql(Some(catName)) + "'), '";
    var tail := ImageLiteral(q.imageUrl) + ");\n\n";
    var r := head + (EscapeSql(Some(q.text)) + "', " + tail);
    assert r[|r| - |tail|..] == tail;
    r
  }

  /**
   * Between the category lookup and the image literal a seed template statement
   * holds the escaped question text, a literal that reads back as the text.
   */
  lemma TemplateInsertFields(categories: seq<Category>, q: QuestionTemplate)
    ensures var catName := CategoryNameFor(categories, q.categoryId);
      var head := "-- " + catName + "\n" + TemplateInsertHead + EscapeSql(Some(catName)) + "'), '";
      var tail := ImageLiteral(q.imageUrl) + ");\n\n";
      TemplateInsert(categories, q) == head + (EscapeSql(Some(q.text)) + "', " + tail)
    ensures ParseLiteral("'" + EscapeSql(Some(q.text)) + "'") == Some(Text(q.text))
    ensures var catName := CategoryNameFor(categories, q.categoryId);
      ParseLiteral("'" + EscapeSql(Some(catName)) + "'") == Some(Text(catName))
  {
    EscapeSqlReadsBack(Some(q.text));
    EscapeSqlReadsBack(Some(CategoryNameFor(categories, q.categoryId)));
  }

  /** `${duration}`: a missing number prints as `null`. */
  function Interpolated(n: Option<int>): string {
    match n
    case None => "null"
    case Some(k) => Decimal(k)
  }

  const PunishmentInsertHead := "INSERT INTO punishment_templates (text, duration_questions, icon) VALUES ('"

  /** The seed statement of one punishment template. */
  function PunishmentInsert(p: PunishmentTemplate): (r: string)
    ensures PunishmentInsertHead + EscapeSql(Some(p.text)) + "', " + Interpolated(p.durationQuestions) + ", '" <= r
    ensures var tail := EscapeSql(p.icon) + "');\n"; |tail| <= |r| && r[|r| - |tail|..] == tail
  {
    var head := PunishmentInsertHead + EscapeSql(Some(p.text)) + "', " + Interpolated(p.durationQuestions) + ", '";
    var tail := EscapeSql(p.icon) + "');\n";
    var r := head + tail;
    assert r[|r| - |tail|..] == tail;
    r
  }

  /** A punishment's duration reads back as its number, and a missing one is printed `null`. */
  lemma DurationReadsBack(n: Option<int>)
    ensures n.Some? ==> ParseLiteral(Interpolated(n)) == Some(Num(n.value))
    ensures n.None? ==> Interpolated(n) == "null"
  {
    if n.Some? {
      RenderValueRoundTrip(Num(n.value));
    }
  }

  // ---------------------------------------------------------------- the render loops

  /** The category statements, row by row. */
  function CategoriesSql(categories: seq<Category>): string
    decreases |categories|
  {
    if categories == [] then "" else CategoriesSql(categories[..|categories| - 1]) + CategoryInsert(categories[|categories| - 1])
  }

  /** The question template statements, row by row. */
  function TemplatesSql(categories: seq<Category>, templates: seq<QuestionTemplate>): string
    decreases |templates|
  {
    if templates == [] then ""
    else TemplatesSql(categories, templates[..|templates| - 1]) + TemplateInsert(categories, templates[|templates| - 1])
  }

  /** The punishment template statements, row by row. */
  function PunishmentsSql(punishments: seq<PunishmentTemplate>): string
    decreases |punishments|
  {
    if punishments == [] then "" else PunishmentsSql(punishments[..|punishments| - 1]) + PunishmentInsert(punishments[|punishments| - 1])
  }

  /** The generic statements of a table, row by row. */
  function RowsSql(table: string, rows: seq<seq<Field>>, exclude: seq<string>): string
    decreases |rows|
  {
    if rows == [] then "" else RowsSql(table, rows[..|rows| - 1], exclude) + GenerateInsert(table, rows[|rows| - 1], exclude)
  }

  /** The category loop of seed mode: `sqlContent += ...` per row. */
  method RenderCategories(sqlContent: string, categories: seq<Category>) returns (sql: string)
    ensures sql == sqlContent + CategoriesSql(categories)
  {
    sql := sqlContent;
    for i := 0 to |categories|
      invariant sql == sqlContent + CategoriesSql(categories[..i])
    {
      assert categories[..i + 1][..i] == categories[..i];
      assert CategoriesSql(categories[..i + 1]) == CategoriesSql(categories[..i]) + CategoryInsert(categories[i]);
      AppendAssociative(sqlContent, CategoriesSql(categories[..i]), CategoryInsert(categories[i]));
      sql := sql + CategoryInsert(categories[i]);
    }
    assert categories[..|categories|] == categories;
  }

  /** The question template loop of seed mode. */
  method RenderTemplates(sqlContent: string, categories: seq<Category>, templates: seq<QuestionTemplate>) returns (sql: string)
    ensures sql == sqlContent + TemplatesSql(categories, templates)
  {
    sql := sqlContent;
    for i := 0 to |templates|
      invariant sql == sqlContent + TemplatesSql(categories, templates[..i])
    {
      assert templates[..i + 1][..i] == templates[..i];
      assert TemplatesSql(categories, templates[..i + 1]) == TemplatesSql(categories, templates[..i]) + TemplateInsert(categories, templates[i]);
      AppendAssociative(sqlContent, TemplatesSql(categories, templates[..i]), TemplateInsert(categories, templates[i]));
      sql := sql + TemplateInsert(categories, templates[i]);
    }
    assert templates[..|templates|] == templates;
  }

  /** The punishment template loop of seed mode. */
  method RenderPunishments(sqlContent: string, punishments: seq<PunishmentTemplate>) returns (sql: string)
    ensures sql == sqlContent + PunishmentsSql(punishments)
  {
    sql := sqlContent;
    for i := 0 to |punishments|
      invariant sql == sqlContent + PunishmentsSql(punishments[..i])
    {
      assert punishments[..i + 1][..i] == punishments[..i];
      assert PunishmentsSql(punishments[..i + 1]) == PunishmentsSql(punishments[..i]) + PunishmentInsert(punishments[i]);
      AppendAssociative(sqlContent, PunishmentsSql(punishments[..i]), PunishmentInsert(punishments[i]));
      sql := sql + PunishmentInsert(punishments[i]);
    }
    assert punishments[..|punishments|] == punishments;
  }

  /** A table loop of full-backup mode: one `generateInsert` per row. */
  method RenderRows(sqlContent: string, table: string, rows: seq<seq<Field>>, exclude: seq<string>) returns (sql: string)
    ensures sql == sqlContent + RowsSql(table, rows, exclude)
  {
    sql := sqlContent;
    for i := 0 to |rows|
      invariant sql == sqlContent + RowsSql(table, rows[..i], exclude)
    {
      assert rows[..i + 1][..i] == rows[..i];
      assert RowsSql(table, rows[..i + 1], exclude) == RowsSql(table, rows[..i], exclude) + GenerateInsert(table, rows[i], exclude);
      AppendAssociative(sqlContent, RowsSql(table, rows[..i], exclude), GenerateInsert(table, rows[i], exclude));
      sql := sql + GenerateInsert(table, rows[i], exclude);
    }
    assert rows[..|rows|] == rows;
  }

  /** The category statements of `a + b` are those of `a` followed by those of `b`. */
  lemma {:induction false} CategoriesSqlConcat(a: seq<Category>, b: seq<Category>)
    ensures CategoriesSql(a + b) == CategoriesSql(a) + CategoriesSql(b)
    decreases |b|
  {
    if b == [] {
      assert a + b == a;
    } else {
      var b' := b[..|b| - 1];
      assert (a + b)[..|a + b| - 1] == a + b';
      CategoriesSqlConcat(a, b');
      AppendAssociative(CategoriesSql(a), CategoriesSql(b'), CategoryInsert(b[|b| - 1]));
    }
  }
}
