/**
 * `getFieldName`: quote a reserved word in backticks, then qualify the name
 * with the builder's alias when aliasing is on and the name is not already
 * qualified.
 */
module Naming {
  import opened Text

  /**
   * What `getFieldName` consults: the reserved-word table of `MySqlConnection`
   * and the base builder's `canAlias()` and `_alias`.
   */
  datatype NamingContext = NamingContext(reserved: set<string>, canAlias: bool, alias: string)

  function FieldName(nm: NamingContext, name: string): string
  {
    var quoted := if name in nm.reserved then "`" + name + "`" else name;
    if !nm.canAlias then quoted
    else if '.' !in quoted then nm.alias + "." + quoted
    else quoted
  }

  /** `getFieldName` applied to each name, in order. */
  function FieldNames(nm: NamingContext, names: seq<string>): (r: seq<string>)
    ensures |r| == |names|
    ensures forall i :: 0 <= i < |names| ==> r[i] == FieldName(nm, names[i])
  {
    seq(|names|, i requires 0 <= i < |names| => FieldName(nm, names[i]))
  }

  /** Qualifying two name lists in turn is qualifying their concatenation, as repeated `select` calls do. */
  lemma FieldNamesConcat(nm: NamingContext, a: seq<string>, b: seq<string>)
    ensures FieldNames(nm, a + b) == FieldNames(nm, a) + FieldNames(nm, b)
  {
  }

  /** With aliasing on, every column `select` adds is qualified. */
  lemma FieldNamesQualified(nm: NamingContext, names: seq<string>)
    requires nm.canAlias
    ensures forall i :: 0 <= i < |names| ==> '.' in FieldNames(nm, names)[i]
  {
    forall i | 0 <= i < |names| ensures '.' in FieldNames(nm, names)[i] {
      FieldNameQualified(nm, names[i]);
    }
  }

  /**
   * The result in closed form: the alias prefix appears exactly when aliasing
   * is on and the name itself has no `.`; the name is quoted exactly when it is
   * reserved.
   */
  lemma FieldNameShape(nm: NamingContext, name: string)
    ensures FieldName(nm, name) ==
      (if nm.canAlias && '.' !in name then nm.alias + "." else "")
      + (if name in nm.reserved then "`" + name + "`" else name)
  {
    var quoted := "`" + name + "`";
    assert forall i :: 0 <= i < |name| ==> quoted[i + 1] == name[i];
    assert '.' in name ==> '.' in quoted;
    assert '.' in quoted ==> '.' in name by {
      if '.' in quoted {
        var i :| 0 <= i < |quoted| && quoted[i] == '.';
        assert 0 < i < |quoted| - 1;
        assert name[i - 1] == '.';
      }
    }
  }

  /** With aliasing on, every result is qualified. */
  lemma FieldNameQualified(nm: NamingContext, name: string)
    requires nm.canAlias
    ensures '.' in FieldName(nm, name)
  {
    var r := FieldName(nm, name);
    var quoted := if name in nm.reserved then "`" + name + "`" else name;
    if '.' !in quoted {
      assert r[|nm.alias|] == '.';
    }
  }

  /**
   * Applying `getFieldName` to its own result changes nothing, provided no
   * reserved word contains a `.` or a backtick.
   */
  lemma FieldNameIdempotent(nm: NamingContext, name: string)
    requires forall w :: w in nm.reserved ==> '.' !in w && '`' !in w
    ensures FieldName(nm, FieldName(nm, name)) == FieldName(nm, name)
  {
    var r := FieldName(nm, name);
    if nm.canAlias {
      FieldNameQualified(nm, name);
      assert r !in nm.reserved;
    } else if name in nm.reserved {
      assert r[0] == '`';
      assert r !in nm.reserved;
    }
  }

  /** No parenthesis enters a field name except through the name or the alias. */
  lemma FieldNameParenFree(nm: NamingContext, name: string)
    requires ParenFree(name) && ParenFree(nm.alias)
    ensures ParenFree(FieldName(nm, name))
  {
    var quoted := "`" + name + "`";
    assert forall i :: 0 < i < |quoted| - 1 ==> quoted[i] == name[i - 1];
  }
}
