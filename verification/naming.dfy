/** The naming policy shared by the generators: field → property name,
    method → command and can-execute names, and the backing-field name
    derived from a command or attribute-defined property name. */
module Naming {
  import opened Wrappers
  import opened Text

  /** `ChooseName` / `chooseName`: an override wins verbatim; otherwise every
      leading `_` is trimmed, an empty remainder gives "", and the first
      character of the remainder is upper-cased. */
  function PropertyName(fieldName: string, nameArg: Option<string>): (r: string)
    ensures nameArg.Some? ==> r == nameArg.value
    ensures nameArg.None? ==> |r| <= |fieldName|
  {
    if nameArg.Some? then nameArg.value
    else
      var trimmed := TrimStart(fieldName, '_');
      if |trimmed| == 0 then ""
      else if |trimmed| == 1 then ToUpper(trimmed)
      else ToUpper(trimmed[..1]) + trimmed[1..]
  }

  /** The skip rule: a field is turned into a property unless the chosen name
      is empty or equal to the field's own name — override or not. */
  predicate GeneratesProperty(fieldName: string, nameArg: Option<string>)
  {
    var p := PropertyName(fieldName, nameArg);
    |p| != 0 && p != fieldName
  }

  /** `{Method}Command` unless `CommandName` overrides it. */
  function CommandName(methodName: string, nameArg: Option<string>): (r: string)
    ensures nameArg.Some? ==> r == nameArg.value
    ensures nameArg.None? ==> |r| == |methodName| + 7 && r[..|methodName|] == methodName && r[|methodName|..] == "Command"
  {
    if nameArg.Some? then nameArg.value else methodName + "Command"
  }

  /** `Can{Method}` unless `CanExecuteName` overrides it. */
  function CanExecuteName(methodName: string, nameArg: Option<string>): (r: string)
    ensures nameArg.Some? ==> r == nameArg.value
    ensures nameArg.None? ==> |r| == |methodName| + 3 && r[..3] == "Can" && r[3..] == methodName
  {
    if nameArg.Some? then nameArg.value else "Can" + methodName
  }

  /** `$"_{name.Substring(0, 1).ToLower()}{name.Substring(1)}"`;
      `Substring(0, 1)` throws on an empty name. */
  function BackingField(name: string): (r: Result<string>)
    ensures r.Failure? <==> name == ""
    ensures r.Success? ==>
      && |r.value| == |name| + 1 && r.value[0] == '_'
      && r.value[1] == ToLowerChar(name[0]) && r.value[2..] == name[1..]
  {
    if |name| < 1 then Failure(ArgumentOutOfRange("length"))
    else
      var first := name[..1];
      Success("_" + [ToLowerChar(first[0])] + name[1..])
  }

  /** With no override, the property name is the field name after its leading
      underscores, with the first remaining character upper-cased. */
  lemma PropertyNameDerived(fieldName: string, k: nat)
    requires k < |fieldName| && fieldName[k] != '_'
    requires forall i :: 0 <= i < k ==> fieldName[i] == '_'
    ensures PropertyName(fieldName, None) == [ToUpperChar(fieldName[k])] + fieldName[k + 1..]
  {
    var trimmed := TrimStart(fieldName, '_');
    assert |trimmed| == |fieldName| - k;
    assert trimmed[1..] == fieldName[k + 1..];
  }

  /** With no override, the property name is empty exactly when the field name
      is all underscores. */
  lemma PropertyNameEmpty(fieldName: string)
    ensures PropertyName(fieldName, None) == "" <==> forall i :: 0 <= i < |fieldName| ==> fieldName[i] == '_'
  {
    var trimmed := TrimStart(fieldName, '_');
    if |trimmed| > 0 {
      assert fieldName[|fieldName| - |trimmed|] == trimmed[0] != '_';
    }
  }

  /** A derived (non-empty) property name never starts with `_`. */
  lemma DerivedNameHasNoUnderscore(fieldName: string)
    ensures var p := PropertyName(fieldName, None); |p| > 0 ==> p[0] != '_'
  {
    var trimmed := TrimStart(fieldName, '_');
  }

  /** The skip rule, read without computing the name: with an override the
      field is kept iff the override is non-empty and differs from the field
      name; without one, iff the name is not all underscores and either starts
      with `_` or with a lower-case letter. */
  lemma GeneratesPropertyIff(fieldName: string, nameArg: Option<string>)
    ensures nameArg.Some? ==>
      (GeneratesProperty(fieldName, nameArg) <==> nameArg.value != "" && nameArg.value != fieldName)
    ensures nameArg.None? ==>
      (GeneratesProperty(fieldName, nameArg) <==>
         (exists i :: 0 <= i < |fieldName| && fieldName[i] != '_')
         && (fieldName[0] == '_' || IsLowerAscii(fieldName[0])))
  {
    if nameArg.None? {
      PropertyNameEmpty(fieldName);
      var p := PropertyName(fieldName, None);
      if exists i :: 0 <= i < |fieldName| && fieldName[i] != '_' {
        var k := FirstNonUnderscore(fieldName);
        PropertyNameDerived(fieldName, k);
        if fieldName[0] == '_' {
          assert k > 0;
          assert |p| < |fieldName|;
        } else {
          assert k == 0;
          assert fieldName == [fieldName[0]] + fieldName[1..];
          assert p == fieldName <==> ToUpperChar(fieldName[0]) == fieldName[0];
        }
      }
    }
  }

  function FirstNonUnderscore(s: string): (k: nat)
    requires exists i :: 0 <= i < |s| && s[i] != '_'
    ensures k < |s| && s[k] != '_'
    ensures forall i :: 0 <= i < k ==> s[i] == '_'
  {
    if s[0] != '_' then 0
    else
      assert exists i :: 0 <= i < |s[1..]| && s[1..][i] != '_' by {
        var i :| 0 <= i < |s| && s[i] != '_';
        assert s[1..][i - 1] == s[i];
      }
      1 + FirstNonUnderscore(s[1..])
  }

  /** Distinct methods get distinct default command names, and distinct
      default predicate names. */
  lemma DefaultNamesInjective(m1: string, m2: string)
    requires m1 != m2
    ensures CommandName(m1, None) != CommandName(m2, None)
    ensures CanExecuteName(m1, None) != CanExecuteName(m2, None)
  {
    if |m1| == |m2| {
      assert CommandName(m1, None)[..|m1|] == m1;
    }
  }

  /** A default command name is never empty, so its backing field always exists. */
  lemma DefaultCommandHasBackingField(methodName: string)
    ensures BackingField(CommandName(methodName, None)).Success?
  {
  }

  /** Reading a backing field name as a field name gives the name back exactly
      when that name starts with neither `_` nor a lower-case letter — so a
      property defined by attribute as `FirstName` and a field `_firstName`
      name the same property. */
  lemma BackingFieldRoundTrip(name: string)
    requires name != ""
    ensures PropertyName(BackingField(name).value, None) == name
        <==> name[0] != '_' && !IsLowerAscii(name[0])
  {
    var b := BackingField(name).value;
    var lo := ToLowerChar(name[0]);
    if name[0] != '_' {
      assert b[0] == '_' && b[1] == lo && lo != '_';
      PropertyNameDerived(b, 1);
      assert b[2..] == name[1..];
      assert name == [name[0]] + name[1..];
    } else {
      PropertyNameEmpty(b);
      DerivedNameHasNoUnderscore(b);
    }
  }
}
