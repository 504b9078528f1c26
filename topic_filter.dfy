/** `preprocess_topic`: keep the comments about Crohn's disease and ulcerative
    colitis, split the `medication` text into `drug` and `disease`, and drop the
    row labelled 3. */
module TopicFilter {
  import opened Strings
  import opened Tables

  /** The medication text; a cell that holds no text reads as "". */
  function Medication(r: Row): string
  {
    TextAt(r, "medication")
  }

  /** `str.contains("Crohn") | str.contains("Ulcerative")` */
  predicate InScope(r: Row)
  {
    Contains(Medication(r), "Crohn") || Contains(Medication(r), "Ulcerative")
  }

  /** `~str.contains("For")` */
  predicate Specified(r: Row)
  {
    !Contains(Medication(r), "For")
  }

  /** `df.drop(3)` removes the rows whose index label is 3. */
  predicate NotLabelThree(r: Row)
  {
    r.index != 3
  }

  /** The rows that pass the two medication filters. */
  predicate Listed(r: Row)
  {
    InScope(r) && Specified(r)
  }

  /** The rows that reach the output. */
  predicate Kept(r: Row)
  {
    Listed(r) && NotLabelThree(r)
  }

  /** `str.split("for").str[0]`: the text before the first "for". */
  function Drug(medication: string): string
  {
    SplitOn(medication, "for")[0]
  }

  /** The disease named by the medication text, "" when it names neither. */
  function Disease(medication: string): string
  {
    if Contains(medication, "Crohn") then "Crohn's Disease"
    else if Contains(medication, "Ulcerative") then "Ulcerative Colitis"
    else ""
  }

  /** A kept row as it leaves: `drug` and `disease` added, `medication` gone. */
  function Reshape(r: Row): Row
  {
    var m := Medication(r);
    Row(r.index, r.cells["drug" := Text(Drug(m))]["disease" := Text(Disease(m))] - {"medication"})
  }

  /** The output rows, given the rows once `text_index` is dropped. */
  function TopicRows(rows: seq<Row>): seq<Row>
  {
    MapRows(Where(rows, Kept), Reshape)
  }

  /** The conditions under which `preprocess_topic` returns instead of raising:
      both columns exist and some row labelled 3 survives the two filters. A
      medication that is not text (NaN) gives a missing mask entry, which `|`
      turns into false, so such a row is dropped by the first filter. */
  predicate TopicSucceeds(columns: set<string>, rows: seq<Row>)
  {
    && "text_index" in columns
    && "medication" in columns
    && exists i :: 0 <= i < |rows| && Listed(rows[i]) && rows[i].index == 3
  }

  /** `preprocess_topic(df)`. The caller's frame loses `text_index` in place
      before anything else can fail; the result is a new frame, or null where
      the source raises. */
  method PreprocessTopic(df: Frame) returns (out: Frame?)
    requires df.Valid()
    modifies df
    ensures df.Valid()
    ensures df.columns == old(df.columns) - {"text_index"}
    ensures df.rows == if "text_index" in old(df.columns) then DropCells(old(df.rows), "text_index") else old(df.rows)
    ensures out == null <==> !TopicSucceeds(old(df.columns), old(df.rows))
    ensures out != null ==> fresh(out) && out.Valid()
    ensures out != null ==> out.columns == old(df.columns) - {"text_index", "medication"} + {"drug", "disease"}
    ensures out != null ==> out.rows == TopicRows(df.rows)
  {
    var dropped := df.DropColumn("text_index");
    if !dropped {
      return null;
    }
    SucceedsAfterDrop(old(df.columns), old(df.rows));
    if "medication" !in df.columns {
      return null;
    }
    out := SelectAndReshape(df);
    RemoveTwo(old(df.columns), "text_index", "medication", {"drug", "disease"});
  }

  /** Lines 153-171: the two filters, the split of `medication` and `df.drop(3)`, which fails (null)
      when no listed row is labelled 3. The frame itself is left alone. */
  method SelectAndReshape(df: Frame) returns (out: Frame?)
    requires df.Valid() && "medication" in df.columns
    ensures out == null <==> !exists i :: 0 <= i < |df.rows| && Listed(df.rows[i]) && df.rows[i].index == 3
    ensures out != null ==> fresh(out) && out.Valid()
    ensures out != null ==> out.columns == df.columns - {"medication"} + {"drug", "disease"}
    ensures out != null ==> out.rows == TopicRows(df.rows)
  {
    var inScope := new Frame(df.columns, Where(df.rows, InScope));
    var specified := new Frame(inScope.columns, Where(inScope.rows, Specified));
    SplitMedication(specified);
    TopicStages(df.rows);
    if !(exists i :: 0 <= i < |specified.rows| && specified.rows[i].index == 3) {
      return null;
    }
    out := new Frame(specified.columns, Where(specified.rows, NotLabelThree));
  }

  /** The stages of `preprocess_topic` on the rows: the two filters, the
      reshaping and the removal of label 3 give `TopicRows`, and label 3 is
      present after the reshaping exactly when a listed row carries it. */
  lemma TopicStages(rows: seq<Row>)
    ensures var shaped := MapRows(Where(Where(rows, InScope), Specified), Reshape);
      && Where(shaped, NotLabelThree) == TopicRows(rows)
      && ((exists i :: 0 <= i < |shaped| && shaped[i].index == 3)
          <==> exists i :: 0 <= i < |rows| && Listed(rows[i]) && rows[i].index == 3)
  {
    StagedRows(rows);
    StagedLabel(rows);
  }

  /** The two filters, the reshaping and the removal of label 3 give `TopicRows`. */
  lemma StagedRows(rows: seq<Row>)
    ensures Where(MapRows(Where(Where(rows, InScope), Specified), Reshape), NotLabelThree) == TopicRows(rows)
  {
    var listed := Where(rows, Listed);
    assert Where(Where(rows, InScope), Specified) == listed by {
      WhereTwice(rows, InScope, Specified, Listed);
    }
    WhereAfterMap(listed, Reshape, NotLabelThree, NotLabelThree);
    WhereTwice(rows, Listed, NotLabelThree, Kept);
  }

  /** Label 3 is among the reshaped rows exactly when a listed row carries it. */
  lemma StagedLabel(rows: seq<Row>)
    ensures var shaped := MapRows(Where(Where(rows, InScope), Specified), Reshape);
      (exists i :: 0 <= i < |shaped| && shaped[i].index == 3)
      <==> exists i :: 0 <= i < |rows| && Listed(rows[i]) && rows[i].index == 3
  {
    forall r ensures Reshape(r).index == r.index { }
    WhereTwiceFindsLabel(rows, InScope, Specified, Listed, Reshape, 3);
  }

  /** Removing two columns one after the other removes both. */
  lemma RemoveTwo(c: set<string>, a: string, b: string, added: set<string>)
    ensures c - {a} - {b} + added == c - {a, b} + added
  {
  }

  /** Lines deriving `drug` and `disease` from `medication` and dropping it. */
  method SplitMedication(f: Frame)
    requires f.Valid() && "medication" in f.columns
    modifies f
    ensures f.Valid()
    ensures f.columns == old(f.columns) - {"medication"} + {"drug", "disease"}
    ensures f.rows == MapRows(old(f.rows), Reshape)
  {
    var listed := f.rows;
    var n := |listed|;
    var meds := seq(n, i requires 0 <= i < n => Medication(listed[i]));
    f.Assign("drug", seq(n, i requires 0 <= i < n => Text(Drug(meds[i]))));
    f.Assign("disease", seq(n, i requires 0 <= i < n => Text(Disease(meds[i]))));
    var _ := f.DropColumn("medication");
    assert "drug" != "medication" && "disease" != "medication" by {
      assert "drug"[1] != "medication"[1] && "disease"[1] != "medication"[1];
    }
    ReshapeAssigned(listed, f.rows, meds);
  }

  /** Assigning `drug` and `disease` from the medication text and then dropping
      `medication` reshapes every row. */
  lemma ReshapeAssigned(before: seq<Row>, after: seq<Row>, meds: seq<string>)
    requires |meds| == |before|
    requires forall i :: 0 <= i < |before| ==> meds[i] == Medication(before[i])
    requires after == DropCells(AssignCells(AssignCells(before, "drug",
                                  seq(|meds|, i requires 0 <= i < |meds| => Text(Drug(meds[i])))),
                                "disease", seq(|meds|, i requires 0 <= i < |meds| => Text(Disease(meds[i])))),
                              "medication")
    ensures after == MapRows(before, Reshape)
  {
    forall i | 0 <= i < |before| ensures after[i] == Reshape(before[i]) {
    }
  }

  /** Dropping `text_index` leaves the medication text and the labels alone, so
      success can be decided on the rows that remain. */
  lemma SucceedsAfterDrop(columns: set<string>, rows: seq<Row>)
    requires "text_index" in columns
    ensures var dropped := DropCells(rows, "text_index");
      TopicSucceeds(columns, rows) <==>
        && "medication" in columns - {"text_index"}
        && exists i :: 0 <= i < |dropped| && Listed(dropped[i]) && dropped[i].index == 3
  {
    var dropped := DropCells(rows, "text_index");
    assert forall i :: 0 <= i < |rows| ==> Medication(dropped[i]) == Medication(rows[i]) && dropped[i].index == rows[i].index;
    assert forall i :: 0 <= i < |rows| ==> Listed(dropped[i]) == Listed(rows[i]);
  }

  /** `drug` is the medication text up to its first "for": a prefix free of
      "for", followed by "for" when the text has one, and the whole text when
      it has none. */
  lemma DrugBeforeFor(m: string)
    ensures StartsWith(m, Drug(m))
    ensures !Contains(Drug(m), "for")
    ensures Contains(m, "for") ==> StartsWith(m[|Drug(m)|..], "for")
    ensures !Contains(m, "for") ==> Drug(m) == m
  {
    var pieces := SplitOn(m, "for");
    JoinSplit(m, "for");
    JoinPrefix("for", pieces);
    SplitFirstPiece(m, "for");
    if |pieces| > 1 {
      assert m == pieces[0] + ("for" + JoinWith("for", pieces[1..]));
      assert m[|pieces[0]|..] == "for" + JoinWith("for", pieces[1..]);
    }
  }

  /** A row reaches the output exactly when its medication names one of the two
      diseases, is not marked "For", and its label is not 3; it leaves reshaped. */
  lemma TopicRowsMembers(rows: seq<Row>, o: Row)
    ensures o in TopicRows(rows) <==> exists r :: r in rows && Kept(r) && o == Reshape(r)
  {
    var w := Where(rows, Kept);
    if o in TopicRows(rows) {
      var j :| 0 <= j < |w| && TopicRows(rows)[j] == o;
      assert w[j] in w;
    }
    if r :| r in rows && Kept(r) && o == Reshape(r) {
      assert r in w;
      var j :| 0 <= j < |w| && w[j] == r;
      assert TopicRows(rows)[j] == o;
    }
  }

  /** Every output row keeps its label, which is never 3, has lost
      `medication`, and names one of the two diseases. */
  lemma TopicRowsShape(rows: seq<Row>)
    ensures forall o :: o in TopicRows(rows) ==>
      && o.index != 3
      && "medication" !in o.cells
      && "drug" in o.cells && o.cells["drug"].Text?
      && "disease" in o.cells
      && (o.cells["disease"] == Text("Crohn's Disease") || o.cells["disease"] == Text("Ulcerative Colitis"))
  {
    forall o | o in TopicRows(rows)
      ensures o.index != 3 && "medication" !in o.cells
      ensures "drug" in o.cells && o.cells["drug"].Text? && "disease" in o.cells
      ensures o.cells["disease"] == Text("Crohn's Disease") || o.cells["disease"] == Text("Ulcerative Colitis")
    {
      TopicRowsMembers(rows, o);
      var r :| r in rows && Kept(r) && o == Reshape(r);
      ReshapedShape(r);
    }
  }

  /** A reshaped row has lost `medication` and holds text in `drug` and a
      disease name chosen by the medication text. */
  lemma ReshapedShape(r: Row)
    ensures var o := Reshape(r);
      && o.index == r.index
      && "medication" !in o.cells
      && "drug" in o.cells && o.cells["drug"].Text?
      && "disease" in o.cells
      && (InScope(r) ==> o.cells["disease"] == Text("Crohn's Disease") || o.cells["disease"] == Text("Ulcerative Colitis"))
  {
    assert "drug"[1] != "medication"[1] && "disease"[1] != "medication"[1];
  }

  /** A medication text without a capital C or U names neither disease. */
  lemma OutOfScope(m: string)
    requires 'C' !in m && 'U' !in m
    ensures !Contains(m, "Crohn") && !Contains(m, "Ulcerative")
  {
    if Contains(m, "Crohn") {
      ContainsHasChars(m, "Crohn", 0);
    }
    if Contains(m, "Ulcerative") {
      ContainsHasChars(m, "Ulcerative", 0);
    }
  }

  /** A row whose medication is NaN (or any other non-text value) never
      reaches the output: its mask entry is missing and `|` reads that as false. */
  lemma NonTextMedicationDropped(r: Row)
    requires "medication" in r.cells && !r.cells["medication"].Text?
    ensures !InScope(r) && !Kept(r)
  {
    OutOfScope(Medication(r));
  }

  /** When every row labelled 3 has the medication "For unspecified", the
      filters remove it and `df.drop(3)` raises. */
  lemma UnspecifiedLabelThreeRaises(columns: set<string>, rows: seq<Row>)
    requires forall i :: 0 <= i < |rows| && rows[i].index == 3 ==> Medication(rows[i]) == "For unspecified"
    ensures !TopicSucceeds(columns, rows)
  {
    var last := "For unspecified";
    assert 'C' !in last && 'U' !in last;
    OutOfScope(last);
  }
}
