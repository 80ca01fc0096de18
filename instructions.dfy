/**
 * The system prompts sent to the completion service (src/instructions.ts).
 * Each builder fills a fixed template and trims the result. The long texts are
 * written line by line; the proofs work on the template's shape through the
 * lemmas at the end of the module, so that they need only the first and last
 * character of each text.
 */
module Instructions {
  import opened Text

  /** The schema shown to the model: the two tables of the review dataset. */
  const DatabaseDescription: string :=
      "Database:\n"
    + "CREATE TABLE Restaurants (\n"
    + "  id INTEGER PRIMARY KEY AUTOINCREMENT,\n"
    + "  restaurantName varchar(255) COLLATE NOCASE,\n"
    + "  overallRating REAL\n"
    + ");\n"
    + "\n"
    + "CREATE TABLE Reviews (\n"
    + "  id INTEGER PRIMARY KEY AUTOINCREMENT,\n"
    + "  restaurantId INTEGER,\n"
    + "  rating INTEGER,\n"
    + "  review TEXT COLLATE NOCASE,\n"
    + "  reviewer varchar(255) COLLATE NOCASE,\n"
    + "  FOREIGN KEY(restaurantId) REFERENCES Restaurants(id)\n"
    + ");"

  /** The generation and repair prompts open alike and differ only in their verb. */
  const JobOpening: string := "Your job is to "

  const JobRules: string :=
      " SQLite queries to answer the user's question."
    + " Use the provided database schema to structure your queries."
    + " You may only respond with queries as a string."
    + " You may only retrieve a maximum of ten rows per query."
    + " Each query should end with a semicolon."

  const QueryIntro: string := JobOpening + "create" + JobRules

  /** The worked examples of the generation prompt, without the template's final newline. */
  const QueryExamples: string :=
      "Examples:\n"
    + "To find the average rating for Italian restaurants:\n"
    + "SELECT AVG(rating) FROM Reviews WHERE review LIKE '%italian%';\n"
    + "\n"
    + "To summarize the reviews for a specific restaurant:\n"
    + "SELECT review FROM Reviews WHERE name = 'The Best Italian Restaurant';\n"
    + "\n"
    + "To count the total number of restaurants:\n"
    + "SELECT COUNT(DISTINCT names) FROM Reviews;\n"
    + "\n"
    + "To find out which restaurants serve noodles: (searching the 'review' field specifically)\n"
    + "SELECT DISTINCT r.restaurantName FROM Restaurants r JOIN Reviews rv ON r.id = rv.restaurantId WHERE rv.review LIKE '%noodle%';\n"
    + "\n"
    + "To find out what a restaurant sells:\n"
    + "SELECT review FROM Reviews rv JOIN Restaurants r ON r.id = rv.restaurantID where r.restaurantName = \"Taco Bell\";\n"
    + "\n"
    + "To find out what people have said about the salad at a restaurant:\n"
    + "SELECT rv.review FROM Reviews rv JOIN Restaurants r ON r.id = rv.restaurantId WHERE rv.review LIKE '%salad%' AND r.restaurantName = \"Taco Bell\";"

  const FixIntro: string := JobOpening + "fix" + JobRules

  const FailedHeader: string := "Failed Queries you need to fix:"

  /** The part of the repair prompt that does not depend on the failed statements. */
  const FixPreamble: string := FixIntro + "\n\n" + DatabaseDescription

  const ResponseIntro: string :=
      "You are a helpful "
    + "assistant that helps a user find a great restaurant."
    + " The restaurants' information is kept in a database with this sql schema:"

  const ResultsHeader: string := "These are some relevant queries and their responses:"

  /** The closing rules of the answer prompt, without the template's final newline. */
  const ResponseFooter: string :=
      "Do not mention the existence of a database or SQL queries in your response.\n"
    + "If looking at multiple reviews, summarize what they say to be concise in your response."

  /** The text placed before the serialised query results in the answer prompt. */
  const ResponseLead: string := ResponseIntro + "\n\n" + DatabaseDescription + "\n\n" + ResultsHeader + "\n"

  /** `getQueryInstructions`: one fixed prompt; trimming drops only the template's last newline. */
  function QueryInstructions(): (r: string)
    ensures r == QueryIntro + "\n\n" + DatabaseDescription + "\n\n" + QueryExamples
    ensures IsInfix(DatabaseDescription, r)
    ensures IsTrimmed(r)
  {
    QueryTemplateEnds();
    ThreeSections(QueryIntro, DatabaseDescription, QueryExamples);
    Trim(QueryIntro + "\n\n" + DatabaseDescription + "\n\n" + QueryExamples + "\n")
  }

  /** The optional section of the repair prompt that lists the failed statements. */
  function FailedSection(failedQueries: seq<string>): string
  {
    if |failedQueries| > 0 then FailedHeader + "\n" + Join(failedQueries, "\n ") else ""
  }

  /** `getFixQueryInstructions`. Without failed statements the prompt is exactly the preamble;
      with some, the preamble is followed by a blank line, the header and the statements joined
      by `"\n "` in the given order, of which trimming can only shorten the end (and leaves
      intact when the last statement ends with non-whitespace, see `ListedVerbatim`). */
  function FixQueryInstructions(failedQueries: seq<string>): (r: string)
    ensures failedQueries == [] ==> r == FixPreamble
    ensures failedQueries != [] ==>
      r == FixPreamble + "\n\n" + FailedHeader + TrimEnd("\n" + Join(failedQueries, "\n "))
    ensures IsInfix(DatabaseDescription, r)
    ensures IsTrimmed(r)
  {
    FixTemplateEnds();
    if failedQueries == [] then
      FixShapeEmpty(FixIntro, DatabaseDescription);
      Trim(FixIntro + "\n\n" + DatabaseDescription + "\n\n" + FailedSection(failedQueries) + "\n")
    else
      FixShapeList(FixIntro, DatabaseDescription, FailedHeader, Join(failedQueries, "\n "));
      Trim(FixIntro + "\n\n" + DatabaseDescription + "\n\n" + FailedSection(failedQueries) + "\n")
  }

  /** Every failed statement the parser produces ends with `;`; for such lists trimming the
      repair prompt removes nothing from the listing, so every failed statement appears in it
      verbatim. */
  lemma ListedVerbatim(failedQueries: seq<string>)
    requires failedQueries != []
    requires var last := failedQueries[|failedQueries| - 1]; last != [] && !IsWhitespace(last[|last| - 1])
    ensures TrimEnd("\n" + Join(failedQueries, "\n ")) == "\n" + Join(failedQueries, "\n ")
    ensures forall q <- failedQueries :: IsInfix(q, "\n" + Join(failedQueries, "\n "))
  {
    ListingEnds(failedQueries);
    forall q <- failedQueries
      ensures IsInfix(q, "\n" + Join(failedQueries, "\n "))
    {
      JoinContains(failedQueries, "\n ", q);
      InfixAfter(q, "\n", Join(failedQueries, "\n "));
    }
  }

  /** The listing of failed statements ends where the last of them ends. */
  lemma ListingEnds(failedQueries: seq<string>)
    requires failedQueries != []
    requires var last := failedQueries[|failedQueries| - 1]; last != [] && !IsWhitespace(last[|last| - 1])
    ensures TrimEnd("\n" + Join(failedQueries, "\n ")) == "\n" + Join(failedQueries, "\n ")
  {
    var j := Join(failedQueries, "\n ");
    JoinLast(failedQueries, "\n ");
    assert ("\n" + j)[|"\n" + j| - 1] == j[|j| - 1];
    TrimEndAt("\n" + j, |"\n" + j|);
  }

  /** Each part of a join occurs in it. */
  lemma {:induction false} JoinContains(parts: seq<string>, sep: string, q: string)
    requires q in parts
    ensures IsInfix(q, Join(parts, sep))
  {
    if |parts| == 1 {
      InfixSelf(q);
    } else if parts[0] == q {
      InfixSelf(q);
      InfixGrow(q, q, sep);
      InfixGrow(q, q + sep, Join(parts[1..], sep));
    } else {
      assert q in parts[1..];
      JoinContains(parts[1..], sep, q);
      InfixAfter(q, parts[0] + sep, Join(parts[1..], sep));
    }
  }

  /** `getResponseInstructions`, with the `JSON.stringify` output given as `serialised`:
      the serialised results sit verbatim between the fixed lead and the fixed footer, whatever
      whitespace they start or end with. */
  function ResponseInstructions(serialised: string): (r: string)
    ensures r == ResponseLead + serialised + "\n\n" + ResponseFooter
    ensures IsInfix(DatabaseDescription, r)
    ensures IsInfix(serialised, r)
    ensures IsTrimmed(r)
  {
    ResponseTemplateEnds();
    ResponseShape(ResponseIntro, DatabaseDescription, ResultsHeader, serialised, ResponseFooter);
    Trim(ResponseLead + serialised + "\n\n" + ResponseFooter + "\n")
  }

  // ---- the characters at the ends of the fixed texts ----

  lemma QueryTemplateEnds()
    ensures QueryIntro != [] && QueryIntro[0] == 'Y'
    ensures QueryExamples != [] && QueryExamples[|QueryExamples| - 1] == ';'
  {
  }

  lemma FixTemplateEnds()
    ensures FixIntro != [] && FixIntro[0] == 'Y'
    ensures DatabaseDescription != [] && DatabaseDescription[|DatabaseDescription| - 1] == ';'
    ensures FailedHeader != [] && FailedHeader[|FailedHeader| - 1] == ':'
    ensures FixPreamble != [] && FixPreamble[|FixPreamble| - 1] == ';'
  {
  }

  lemma ResponseTemplateEnds()
    ensures ResponseLead != [] && ResponseLead[0] == 'Y'
    ensures ResponseFooter != [] && ResponseFooter[|ResponseFooter| - 1] == '.'
  {
  }

  // ---- the shapes of the templates, over arbitrary texts ----

  /** The generation template: text, schema and examples separated by blank lines. */
  lemma ThreeSections(a: string, b: string, c: string)
    requires a != [] && !IsWhitespace(a[0])
    requires c != [] && !IsWhitespace(c[|c| - 1])
    ensures Trim(a + "\n\n" + b + "\n\n" + c + "\n") == a + "\n\n" + b + "\n\n" + c
    ensures IsInfix(b, a + "\n\n" + b + "\n\n" + c)
  {
    var body := a + "\n\n" + b + "\n\n" + c;
    assert body[0] == a[0];
    assert body[|body| - 1] == c[|c| - 1];
    TrimPadded(body, "\n");
    InfixEnd(a + "\n\n", b);
    InfixGrow(b, a + "\n\n" + b, "\n\n");
    InfixGrow(b, a + "\n\n" + b + "\n\n", c);
  }

  /** The repair template with an empty optional section. */
  lemma FixShapeEmpty(a: string, b: string)
    requires a != [] && !IsWhitespace(a[0])
    requires b != [] && !IsWhitespace(b[|b| - 1])
    ensures Trim(a + "\n\n" + b + "\n\n" + "" + "\n") == a + "\n\n" + b
    ensures IsInfix(b, a + "\n\n" + b)
  {
    var p := a + "\n\n" + b;
    assert a + "\n\n" + b + "\n\n" + "" + "\n" == p + "\n\n\n";
    assert p[0] == a[0];
    assert p[|p| - 1] == b[|b| - 1];
    TrimPadded(p, "\n\n\n");
    InfixEnd(a + "\n\n", b);
  }

  /** The repair template with the section `h + "\n" + j`, where `h` ends with non-whitespace. */
  lemma FixShapeList(a: string, b: string, h: string, j: string)
    requires a != [] && !IsWhitespace(a[0])
    requires h != [] && !IsWhitespace(h[|h| - 1])
    ensures Trim(a + "\n\n" + b + "\n\n" + (h + "\n" + j) + "\n") == a + "\n\n" + b + "\n\n" + h + TrimEnd("\n" + j)
    ensures IsInfix(b, a + "\n\n" + b + "\n\n" + h + TrimEnd("\n" + j))
  {
    var p := a + "\n\n" + b + "\n\n" + h;
    var x := "\n" + j;
    var s := a + "\n\n" + b + "\n\n" + (h + "\n" + j) + "\n";
    assert s == p + (x + "\n");
    assert s[0] == a[0];
    TrimFromStart(s);
    assert p[|p| - 1] == h[|h| - 1];
    TrimEndAppend(p, x + "\n");
    TrimEndNewline(x);
    InfixEnd(a + "\n\n", b);
    InfixGrow(b, a + "\n\n" + b, "\n\n");
    InfixGrow(b, a + "\n\n" + b + "\n\n", h);
    InfixGrow(b, p, TrimEnd(x));
  }


  /** The answer template: trimming leaves everything but the final newline when the intro
      starts and the footer ends with non-whitespace; the schema and the serialised results
      both occur in the prompt. */
  lemma ResponseShape(intro: string, db: string, header: string, json: string, f: string)
    requires intro != [] && !IsWhitespace(intro[0])
    requires f != [] && !IsWhitespace(f[|f| - 1])
    ensures var lead := intro + "\n\n" + db + "\n\n" + header + "\n";
      && Trim(lead + json + "\n\n" + f + "\n") == lead + json + "\n\n" + f
      && IsInfix(json, lead + json + "\n\n" + f)
      && IsInfix(db, lead + json + "\n\n" + f)
  {
    var lead := intro + "\n\n" + db + "\n\n" + header + "\n";
    var body := lead + json + "\n\n" + f;
    assert body[0] == intro[0];
    assert body[|body| - 1] == f[|f| - 1];
    TrimPadded(body, "\n");
    assert body[|lead|..|lead| + |json|] == json;
    assert body[|intro| + 2..|intro| + 2 + |db|] == db;
  }

  /** The last character of a join is the last character of the last part. */
  lemma {:induction false} JoinLast(parts: seq<string>, sep: string)
    requires parts != [] && parts[|parts| - 1] != []
    ensures Join(parts, sep) != []
    ensures Join(parts, sep)[|Join(parts, sep)| - 1] == parts[|parts| - 1][|parts[|parts| - 1]| - 1]
  {
    if |parts| > 1 {
      JoinLast(parts[1..], sep);
    }
  }
}
