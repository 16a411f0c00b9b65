/** Column-role resolution (app.py 152-169). The oracle is asked which extracted
    field plays each of the roles material, quantity, unit and identifier, and
    answers with lines such as `guid_col: GlobalId`. The reply is read line by
    line into a dictionary, the four roles are looked up, the roles naming an
    existing column are kept in role order, and those columns are renamed to
    Material, Cantidad, Unidad and ID. */
module RoleReply {
  import opened Wrappers
  import opened Seqs
  import opened Text
  import opened Tables

  /** The reply's lines (`reply.strip().splitlines()`, line breaks being '\n'). */
  function ReplyLines(reply: string): seq<string>
  {
    Split(Strip(reply), "\n")
  }

  /** A line holding a ':' cut at its first ':' into a stripped key and value. */
  function KeyValue(line: string): Option<(string, string)>
  {
    match IndexOf(line, ":")
    case None => None
    case Some(i) => Some((Strip(line[..i]), Strip(line[i + 1..])))
  }

  /** Exactly the lines holding a ':' are read as key-value pairs. */
  lemma KeyValueSome(line: string)
    ensures KeyValue(line).Some? <==> ':' in line
  {
    ContainsChar(line, ':');
  }

  /** The cut is at the first colon of the line. */
  lemma KeyValueAtFirstColon(line: string, i: nat)
    requires i < |line| && line[i] == ':' && ':' !in line[..i]
    ensures KeyValue(line) == Some((Strip(line[..i]), Strip(line[i + 1..])))
  {
    FirstColon(line, i);
  }

  lemma FirstColon(line: string, i: nat)
    requires i < |line| && line[i] == ':' && ':' !in line[..i]
    ensures IndexOf(line, ":") == Some(i)
  {
    assert line[i..i + 1] == ":";
    assert OccursAt(line, ":", i);
    var c := IndexOf(line, ":");
    forall j | 0 <= j < i
      ensures !OccursAt(line, ":", j)
    {
      assert line[..i][j] == line[j];
      assert line[j..j + 1][0] == line[j];
    }
  }

  predicate HasKey(line: string, k: string)
  {
    KeyValue(line).Some? && KeyValue(line).value.0 == k
  }

  /** One parsed line written into the dictionary. */
  function Assign(m: map<string, string>, e: Option<(string, string)>): map<string, string>
  {
    match e
    case None => m
    case Some(kv) => m[kv.0 := kv.1]
  }

  /** The dictionary after reading one more line. */
  function Step(m: map<string, string>, line: string): map<string, string>
  {
    Assign(m, KeyValue(line))
  }

  /** The dictionary built from `lines` in order, each line parsed by `kv`. */
  function Fold(lines: seq<string>, kv: string -> Option<(string, string)>): map<string, string>
  {
    if |lines| == 0 then map[]
    else Assign(Fold(lines[..|lines| - 1], kv), kv(lines[|lines| - 1]))
  }

  /** The dictionary `columnas_detectadas` after reading `lines` in order. */
  function Detected(lines: seq<string>): map<string, string>
  {
    Fold(lines, KeyValue)
  }

  /** The reply loop of app.py 152-156. */
  method ParseRoles(reply: string) returns (detected: map<string, string>)
    ensures detected == Detected(ReplyLines(reply))
  {
    var lines := ReplyLines(reply);
    detected := map[];
    var i := 0;
    while i < |lines|
      invariant 0 <= i <= |lines|
      invariant detected == Detected(lines[..i])
    {
      var line := lines[i];
      DetectedSnoc(lines, i);
      match KeyValue(line) {
        case Some(kv) =>
          detected := detected[kv.0 := kv.1];
        case None =>
      }
      i := i + 1;
    }
    assert lines[..|lines|] == lines;
  }

  lemma DetectedSnoc(lines: seq<string>, i: nat)
    requires i < |lines|
    ensures Detected(lines[..i + 1]) == Step(Detected(lines[..i]), lines[i])
  {
    assert lines[..i + 1][..i] == lines[..i];
  }

  /** A key is detected exactly when some line carries it. */
  lemma DetectedKeys(lines: seq<string>, k: string)
    ensures k in Detected(lines) <==> exists i :: 0 <= i < |lines| && HasKey(lines[i], k)
  {
    FoldKeys(lines, KeyValue, k);
  }

  lemma {:induction false} FoldKeys(lines: seq<string>, kv: string -> Option<(string, string)>, k: string)
    ensures k in Fold(lines, kv) <==> exists i :: 0 <= i < |lines| && kv(lines[i]).Some? && kv(lines[i]).value.0 == k
  {
    if |lines| > 0 {
      var n := |lines| - 1;
      var init := lines[..n];
      FoldKeys(init, kv, k);
      if exists i :: 0 <= i < |init| && kv(init[i]).Some? && kv(init[i]).value.0 == k {
        var i :| 0 <= i < |init| && kv(init[i]).Some? && kv(init[i]).value.0 == k;
        assert init[i] == lines[i];
      }
      if exists i :: 0 <= i < n && kv(lines[i]).Some? && kv(lines[i]).value.0 == k {
        var i :| 0 <= i < n && kv(lines[i]).Some? && kv(lines[i]).value.0 == k;
        assert init[i] == lines[i];
      }
    }
  }

  /** Of several lines with the same key, the last one gives the value. */
  lemma DetectedLastWins(lines: seq<string>, k: string, i: nat)
    requires i < |lines| && HasKey(lines[i], k)
    requires forall j :: i < j < |lines| ==> !HasKey(lines[j], k)
    ensures k in Detected(lines) && Detected(lines)[k] == KeyValue(lines[i]).value.1
  {
    FoldLastWins(lines, KeyValue, k, i);
  }

  lemma {:induction false} FoldLastWins(lines: seq<string>, kv: string -> Option<(string, string)>, k: string, i: nat)
    requires i < |lines| && kv(lines[i]).Some? && kv(lines[i]).value.0 == k
    requires forall j :: i < j < |lines| ==> !(kv(lines[j]).Some? && kv(lines[j]).value.0 == k)
    ensures k in Fold(lines, kv) && Fold(lines, kv)[k] == kv(lines[i]).value.1
  {
    var init := lines[..|lines| - 1];
    if i < |lines| - 1 {
      assert forall j :: i < j < |init| ==> init[j] == lines[j];
      FoldLastWins(init, kv, k, i);
      assert init[i] == lines[i];
    }
  }

  /** The four role lookups `columnas_detectadas.get(...)`. */
  datatype Roles = Roles(material: Option<string>, quantity: Option<string>,
                         unit: Option<string>, guid: Option<string>)

  function Lookup(m: map<string, string>, k: string): Option<string>
  {
    if k in m then Some(m[k]) else None
  }

  function RolesOf(detected: map<string, string>): Roles
  {
    Roles(Lookup(detected, "material_col"), Lookup(detected, "cantidad_col"),
          Lookup(detected, "unidad_col"), Lookup(detected, "guid_col"))
  }

  function Present(o: Option<string>): seq<string>
  {
    if o.Some? then [o.value] else []
  }

  /** The role values that are present, in role order. */
  function Proposed(roles: Roles): seq<string>
  {
    Present(roles.material) + Present(roles.quantity) + Present(roles.unit) + Present(roles.guid)
  }

  predicate Names(roles: Roles, c: string)
  {
    Some(c) == roles.material || Some(c) == roles.quantity || Some(c) == roles.unit || Some(c) == roles.guid
  }

  /** `columnas_validas`: the proposed names that are columns of the table, in role order. */
  function ValidColumns(roles: Roles, columns: seq<string>): (r: seq<string>)
    ensures |r| <= 4
    ensures forall c :: c in r <==> c in columns && Names(roles, c)
    ensures SubSeq(r, Proposed(roles))
  {
    FilterIsSubSeq(Proposed(roles), c => c in columns);
    FilterMembers(Proposed(roles), c => c in columns);
    Filter(Proposed(roles), c => c in columns)
  }

  /** The label a kept column gets from `rename_map`: the dict literal lets a later
      role win over an earlier one with the same name, and the unit role, added last
      and only when non-empty and present, wins over all. */
  function CanonicalName(roles: Roles, columns: seq<string>, c: string): string
  {
    if roles.unit == Some(c) && c != "" && c in columns then "Unidad"
    else if roles.guid == Some(c) then "ID"
    else if roles.quantity == Some(c) then "Cantidad"
    else if roles.material == Some(c) then "Material"
    else c
  }

  /** The labels of the kept columns after `rename_map`. */
  function Labels(roles: Roles, columns: seq<string>): (r: seq<string>)
    ensures |r| == |ValidColumns(roles, columns)|
  {
    var cols := ValidColumns(roles, columns);
    seq(|cols|, j requires 0 <= j < |cols| => CanonicalName(roles, columns, cols[j]))
  }

  /** `df_filtrado`: the kept columns of the extracted table, renamed. */
  function Resolve(f: Frame, detected: map<string, string>): (r: Frame)
    requires Rectangular(f)
    ensures Rectangular(r) && |r.rows| == |f.rows|
    ensures |r.columns| == |ValidColumns(RolesOf(detected), f.columns)|
  {
    var roles := RolesOf(detected);
    var cols := ValidColumns(roles, f.columns);
    var idx := seq(|cols|, j requires 0 <= j < |cols| => ColumnIndex(f.columns, cols[j]).value);
    Frame(Labels(roles, f.columns),
          seq(|f.rows|, i requires 0 <= i < |f.rows| =>
            seq(|cols|, j requires 0 <= j < |cols| => f.rows[i][idx[j]])))
  }

  /** Column `j` of the resolved table is the extracted column that the `j`-th kept
      role names, under its canonical label. */
  lemma ResolveCells(f: Frame, detected: map<string, string>, i: nat, j: nat)
    requires Rectangular(f) && i < |f.rows|
    requires j < |ValidColumns(RolesOf(detected), f.columns)|
    ensures var c := ValidColumns(RolesOf(detected), f.columns)[j];
      c in f.columns && Names(RolesOf(detected), c)
      && Resolve(f, detected).columns[j] == CanonicalName(RolesOf(detected), f.columns, c)
      && Resolve(f, detected).rows[i][j] == f.rows[i][ColumnIndex(f.columns, c).value]
  {
    var c := ValidColumns(RolesOf(detected), f.columns)[j];
    assert c in ValidColumns(RolesOf(detected), f.columns);
  }

  /** A reply naming four distinct existing columns yields exactly the canonical labels
      Material, Cantidad, Unidad, ID in that order. */
  lemma AllRolesResolved(roles: Roles, columns: seq<string>, m: string, q: string, u: string, g: string)
    requires roles == Roles(Some(m), Some(q), Some(u), Some(g))
    requires m in columns && q in columns && u in columns && g in columns && u != ""
    requires m != q && m != u && m != g && q != u && q != g && u != g
    ensures Labels(roles, columns) == ["Material", "Cantidad", "Unidad", "ID"]
  {
    AllRolesValid(roles, columns, m, q, u, g);
  }

  /** Four existing role columns are all kept, in role order. */
  lemma AllRolesValid(roles: Roles, columns: seq<string>, m: string, q: string, u: string, g: string)
    requires roles == Roles(Some(m), Some(q), Some(u), Some(g))
    requires m in columns && q in columns && u in columns && g in columns
    ensures ValidColumns(roles, columns) == [m, q, u, g]
  {
    assert Proposed(roles) == [m, q, u, g];
    FilterAll([m, q, u, g], c => c in columns);
  }

  /** A column proposed both as material and as identifier is labelled ID. */
  lemma SharedColumnTakesLaterRole(roles: Roles, columns: seq<string>, c: string)
    requires roles.material == Some(c) && roles.guid == Some(c) && roles.unit != Some(c)
    ensures CanonicalName(roles, columns, c) == "ID"
  {
  }
}
