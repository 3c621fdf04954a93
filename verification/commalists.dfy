/** The comma-separated list inputs of the patient form (prescriptions and medical
    history): parsed on submit, written back when a record is opened for editing. */
module CommaLists {
  import opened Text

  /** What a parsed list may hold: non-empty, trimmed, comma-free entries. */
  predicate IsListItem(x: string) {
    x != "" && ',' !in x && IsTrimmed(x)
  }

  /** .map(s => s.trim()).filter(s => s) over the pieces of a split. */
  function Clean(pieces: seq<string>): (r: seq<string>)
    requires forall k :: 0 <= k < |pieces| ==> ',' !in pieces[k]
    ensures forall k :: 0 <= k < |r| ==> IsListItem(r[k])
    ensures |r| <= |pieces|
  {
    if pieces == [] then []
    else
      var t := Trim(pieces[0]);
      TrimIsInfix(pieces[0]);
      var rest := Clean(pieces[1..]);
      if t == "" then rest else [t] + rest
  }

  /** value.split(',').map(s => s.trim()).filter(s => s): the submitted list. */
  function ParseList(field: string): (r: seq<string>)
    ensures forall k :: 0 <= k < |r| ==> IsListItem(r[k])
  {
    Clean(Split(field, ','))
  }

  /** list.join(', '): what the edit form shows for a stored list. */
  function FormatList(xs: seq<string>): string {
    Join(xs, ", ")
  }

  /** Parsing the text that editing puts into the input gives the stored list back,
      when every entry is non-empty, trimmed and comma-free. */
  lemma ParseFormat(xs: seq<string>)
    requires forall k :: 0 <= k < |xs| ==> IsListItem(xs[k])
    ensures ParseList(FormatList(xs)) == xs
  {
    ParseAfterSpaces("", xs);
    assert "" + FormatList(xs) == FormatList(xs);
  }

  lemma {:induction false} ParseAfterSpaces(ws: string, xs: seq<string>)
    requires AllSpaces(ws) && ',' !in ws
    requires forall k :: 0 <= k < |xs| ==> IsListItem(xs[k])
    ensures ParseList(ws + Join(xs, ", ")) == xs
    decreases |xs|
  {
    if xs == [] {
      assert ws + Join(xs, ", ") == ws;
      SplitWithoutSeparator(ws, ',');
      TrimIsInfix(ws);
      CleanCons(ws, []);
    } else {
      var x := xs[0];
      TrimAfterSpaces(ws, x);
      assert ',' !in ws + x;
      if |xs| == 1 {
        assert ws + Join(xs, ", ") == ws + x;
        SplitWithoutSeparator(ws + x, ',');
        CleanCons(ws + x, []);
      } else {
        var rest := Join(xs[1..], ", ");
        assert ws + Join(xs, ", ") == (ws + x) + [','] + (" " + rest);
        SplitAtSeparator(ws + x, ',', " " + rest);
        ParseAfterSpaces(" ", xs[1..]);
        CleanCons(ws + x, Split(" " + rest, ','));
      }
    }
  }

  /** Clean on a first piece and the rest. */
  lemma CleanCons(p: string, rest: seq<string>)
    requires ',' !in p && forall k :: 0 <= k < |rest| ==> ',' !in rest[k]
    ensures Clean([p] + rest) == (if Trim(p) == "" then Clean(rest) else [Trim(p)] + Clean(rest))
  {
    assert ([p] + rest)[1..] == rest;
  }

  /** Parsing is idempotent through the edit form: reopening a saved list and saving it
      again stores the same entries. */
  lemma ReparseStable(field: string)
    ensures ParseList(FormatList(ParseList(field))) == ParseList(field)
  {
    ParseFormat(ParseList(field));
  }
}
