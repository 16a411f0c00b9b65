/** Locating the table in a footprint reply before export (app.py 21-31): the
    reply is cut at blank lines, and the first piece that, once stripped, starts
    with a cell bar and holds more than two of them is taken as the table. */
module MarkdownBlock {
  import opened Wrappers
  import opened Seqs
  import opened Text

  /** `bloque.strip().startswith('|') and bloque.strip().count('|') > 2`. */
  predicate IsTableBlock(block: string)
  {
    var t := Strip(block);
    |t| > 0 && t[0] == '|' && Count(t, '|') > 2
  }

  /** The search loop of app.py 23-28; `None` is the "no table" warning path of
      lines 29-31. */
  method FindTable(markdown: string) returns (table: Option<string>)
    ensures table == match FirstWhere(Split(markdown, "\n\n"), IsTableBlock)
                     case None => None
                     case Some(k) => Some(Strip(Split(markdown, "\n\n")[k]))
  {
    var blocks := Split(markdown, "\n\n");
    table := None;
    var i := 0;
    while i < |blocks|
      invariant 0 <= i <= |blocks|
      invariant FirstWhere(blocks[..i], IsTableBlock).None?
      invariant table.None?
    {
      TakeSnoc(blocks, i);
      FirstWhereSnoc(blocks[..i], blocks[i], IsTableBlock);
      if IsTableBlock(blocks[i]) {
        table := Some(Strip(blocks[i]));
        FirstWherePrefix(blocks, i + 1, IsTableBlock);
        return;
      }
      i := i + 1;
    }
    assert blocks[..|blocks|] == blocks;
  }

  /** The table found is a stripped blank-line-separated piece of the reply that
      starts with a bar and holds at least three, and no earlier piece qualifies;
      when none is found, no piece qualifies. */
  lemma FoundTable(markdown: string)
    ensures var blocks := Split(markdown, "\n\n");
      match FirstWhere(blocks, IsTableBlock)
      case None => forall k :: 0 <= k < |blocks| ==> !IsTableBlock(blocks[k])
      case Some(k) =>
        var t := Strip(blocks[k]);
        t[0] == '|' && Count(t, '|') >= 3 && Strip(t) == t
        && forall j :: 0 <= j < k ==> !IsTableBlock(blocks[j])
  {
    var blocks := Split(markdown, "\n\n");
    match FirstWhere(blocks, IsTableBlock)
    case None =>
    case Some(k) =>
      StripIdempotent(blocks[k]);
  }
}
