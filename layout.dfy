/**
 * The keyboard description (`KeySpec`, `RowSpec`, `KeyboardSpec`) and the
 * loader that groups the `<key>` elements of a layout document into rows.
 * The XML pull parser is replaced by the sequence of events it reports.
 */
module Layout {
  import opened Wrappers

  datatype KeySpec = KeySpec(labelText: string, longPress: Option<string>)
  datatype RowSpec = RowSpec(keys: seq<KeySpec>)
  datatype KeyboardSpec = KeyboardSpec(rows: seq<RowSpec>)

  /** What the loader sees of one parser event: a `<row>` start tag, a `<key>` start tag with its
      optional `l` and `lp` attributes, a `</row>` end tag, or anything else. */
  datatype Event = StartRow | StartKey(l: Option<string>, lp: Option<string>) | EndRow | Other

  /** The loader's two variables: the row being collected (null outside a row) and the finished rows. */
  datatype LoadState = LoadState(currentRow: Option<seq<KeySpec>>, rows: seq<RowSpec>)

  const Initial := LoadState(None, [])

  /** A `<key>` element: a missing `l` reads as the empty label, a missing `lp` stays null. */
  function KeyOf(l: Option<string>, lp: Option<string>): KeySpec {
    KeySpec(if l.Some? then l.value else "", lp)
  }

  /** One turn of the loader's loop. */
  function Step(st: LoadState, e: Event): (next: LoadState)
    ensures st.rows <= next.rows
    ensures |next.rows| <= |st.rows| + (if e.EndRow? then 1 else 0)
    ensures e.Other? ==> next == st
    ensures e.StartRow? ==> next.currentRow == Some([])
    ensures e.EndRow? && st.currentRow.None? ==> next == st
    ensures e.EndRow? && st.currentRow.Some? ==> next == LoadState(None, st.rows + [RowSpec(st.currentRow.value)])
  {
    match e
    case StartRow => LoadState(Some([]), st.rows)
    case StartKey(l, lp) =>
      if st.currentRow.Some? then LoadState(Some(st.currentRow.value + [KeyOf(l, lp)]), st.rows) else st
    case EndRow =>
      if st.currentRow.Some? then LoadState(None, st.rows + [RowSpec(st.currentRow.value)]) else st
    case Other => st
  }

  /** The loader's loop run over a whole event sequence. */
  function Run(st: LoadState, es: seq<Event>): LoadState
    decreases |es|
  {
    if es == [] then st else Run(Step(st, es[0]), es[1..])
  }

  /** `KeyboardLoader.load`: walks the events until the end of the document. */
  method Load(events: seq<Event>) returns (spec: KeyboardSpec)
    ensures spec.rows == Run(Initial, events).rows
  {
    var rows: seq<RowSpec> := [];
    var currentRow: Option<seq<KeySpec>> := None;
    var i := 0;
    while i < |events|
      invariant 0 <= i <= |events|
      invariant Run(LoadState(currentRow, rows), events[i..]) == Run(Initial, events)
    {
      assert events[i..][1..] == events[i + 1..];
      match events[i] {
        case StartRow =>
          currentRow := Some([]);
        case StartKey(l, lp) =>
          var labelText := if l.Some? then l.value else "";
          if currentRow.Some? {
            currentRow := Some(currentRow.value + [KeySpec(labelText, lp)]);
          }
        case EndRow =>
          if currentRow.Some? {
            rows := rows + [RowSpec(currentRow.value)];
            currentRow := None;
          }
        case Other =>
      }
      i := i + 1;
    }
    spec := KeyboardSpec(rows);
  }

  /** The events of one key element that carries both attributes. */
  function KeyEvents(keys: seq<KeySpec>): (es: seq<Event>)
    ensures |es| == |keys|
  {
    seq(|keys|, i requires 0 <= i < |keys| => StartKey(Some(keys[i].labelText), keys[i].longPress))
  }

  /** The document that describes a keyboard: each row as `<row>`, its keys, `</row>`. */
  function Document(rows: seq<RowSpec>): seq<Event>
    decreases |rows|
  {
    if rows == [] then [] else [StartRow] + KeyEvents(rows[0].keys) + [EndRow] + Document(rows[1..])
  }

  /** Running over two pieces of input is running over the first, then the second. */
  lemma {:induction false} RunAppend(st: LoadState, a: seq<Event>, b: seq<Event>)
    ensures Run(st, a + b) == Run(Run(st, a), b)
    decreases |a|
  {
    if a != [] {
      assert (a + b)[0] == a[0] && (a + b)[1..] == a[1..] + b;
      RunAppend(Step(st, a[0]), a[1..], b);
    } else {
      assert a + b == b;
    }
  }

  /** Rows already emitted are never changed or reordered: later input only appends rows. */
  lemma {:induction false} RowsOnlyGrow(st: LoadState, es: seq<Event>)
    ensures st.rows <= Run(st, es).rows
    decreases |es|
  {
    if es != [] {
      RowsOnlyGrow(Step(st, es[0]), es[1..]);
    }
  }

  /** Inside an open row, key events append their keys in document order. */
  lemma {:induction false} KeysAppend(cur: seq<KeySpec>, rows: seq<RowSpec>, keys: seq<KeySpec>)
    ensures Run(LoadState(Some(cur), rows), KeyEvents(keys)) == LoadState(Some(cur + keys), rows)
    decreases |keys|
  {
    if keys == [] {
      assert cur + keys == cur;
    } else {
      var es := KeyEvents(keys);
      assert es[1..] == KeyEvents(keys[1..]);
      assert KeyOf(Some(keys[0].labelText), keys[0].longPress) == keys[0];
      KeysAppend(cur + [keys[0]], rows, keys[1..]);
      assert cur + [keys[0]] + keys[1..] == cur + keys;
    }
  }

  /** Keys outside any row are dropped. */
  lemma {:induction false} KeysOutsideRowDropped(rows: seq<RowSpec>, keys: seq<KeySpec>)
    ensures Run(LoadState(None, rows), KeyEvents(keys)) == LoadState(None, rows)
    decreases |keys|
  {
    if keys != [] {
      assert KeyEvents(keys)[1..] == KeyEvents(keys[1..]);
      KeysOutsideRowDropped(rows, keys[1..]);
    }
  }

  /** A `<row>`, its keys and `</row>` yield exactly one new row holding those keys. */
  lemma RowRoundTrip(rows: seq<RowSpec>, keys: seq<KeySpec>)
    ensures Run(LoadState(None, rows), [StartRow] + KeyEvents(keys) + [EndRow]) == LoadState(None, rows + [RowSpec(keys)])
  {
    RunAppend(LoadState(None, rows), [StartRow] + KeyEvents(keys), [EndRow]);
    RunAppend(LoadState(None, rows), [StartRow], KeyEvents(keys));
    KeysAppend([], rows, keys);
    assert [] + keys == keys;
  }

  /** Loading the document that describes a keyboard gives that keyboard back. */
  lemma {:induction false} LoadDocument(prior: seq<RowSpec>, rows: seq<RowSpec>)
    ensures Run(LoadState(None, prior), Document(rows)) == LoadState(None, prior + rows)
    decreases |rows|
  {
    if rows == [] {
      assert prior + rows == prior;
    } else {
      var head := [StartRow] + KeyEvents(rows[0].keys) + [EndRow];
      RunAppend(LoadState(None, prior), head, Document(rows[1..]));
      RowRoundTrip(prior, rows[0].keys);
      LoadDocument(prior + [rows[0]], rows[1..]);
      assert prior + [rows[0]] + rows[1..] == prior + rows;
    }
  }

  /** A second `<row>` before `</row>` throws away the keys collected so far. */
  lemma RestartDiscardsRow(rows: seq<RowSpec>, dropped: seq<KeySpec>, kept: seq<KeySpec>)
    ensures Run(LoadState(None, rows), [StartRow] + KeyEvents(dropped) + [StartRow] + KeyEvents(kept) + [EndRow])
         == LoadState(None, rows + [RowSpec(kept)])
  {
    var st := LoadState(None, rows);
    var a := [StartRow] + KeyEvents(dropped);
    var b := [StartRow] + KeyEvents(kept) + [EndRow];
    assert a + b == [StartRow] + KeyEvents(dropped) + [StartRow] + KeyEvents(kept) + [EndRow];
    RunAppend(st, a, b);
    RunAppend(st, [StartRow], KeyEvents(dropped));
    KeysAppend([], rows, dropped);
    RowRoundTrip(rows, kept);
  }

  /** A row still open when the document ends is not emitted. */
  lemma OpenRowAtEndDropped(es: seq<Event>, keys: seq<KeySpec>)
    ensures Run(Initial, es + [StartRow] + KeyEvents(keys)).rows == Run(Initial, es).rows
  {
    var st := Run(Initial, es);
    RunAppend(Initial, es, [StartRow] + KeyEvents(keys));
    RunAppend(st, [StartRow], KeyEvents(keys));
    KeysAppend([], st.rows, keys);
    assert es + [StartRow] + KeyEvents(keys) == es + ([StartRow] + KeyEvents(keys));
  }

  function EndRowCount(es: seq<Event>): nat
    decreases |es|
  {
    if es == [] then 0 else (if es[0] == EndRow then 1 else 0) + EndRowCount(es[1..])
  }

  /** A row is emitted only on a `</row>`: there are never more new rows than end tags. */
  lemma {:induction false} RowsOnlyOnEndRow(st: LoadState, es: seq<Event>)
    ensures |Run(st, es).rows| <= |st.rows| + EndRowCount(es)
    decreases |es|
  {
    if es != [] {
      RowsOnlyOnEndRow(Step(st, es[0]), es[1..]);
    }
  }

  function WithoutOther(es: seq<Event>): seq<Event>
    decreases |es|
  {
    if es == [] then [] else (if es[0] == Other then [] else [es[0]]) + WithoutOther(es[1..])
  }

  /** Events other than row and key tags do not affect the result. */
  lemma {:induction false} OtherEventsIgnored(st: LoadState, es: seq<Event>)
    ensures Run(st, WithoutOther(es)) == Run(st, es)
    decreases |es|
  {
    if es != [] {
      var head := if es[0] == Other then [] else [es[0]];
      RunAppend(st, head, WithoutOther(es[1..]));
      OtherEventsIgnored(Step(st, es[0]), es[1..]);
    }
  }

  /** With both attributes missing, a key in an open row gets the empty label and no long-press list. */
  lemma MissingAttributes(cur: seq<KeySpec>, rows: seq<RowSpec>)
    ensures Step(LoadState(Some(cur), rows), StartKey(None, None)) == LoadState(Some(cur + [KeySpec("", None)]), rows)
  {
  }
}
