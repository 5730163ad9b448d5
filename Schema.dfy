/**
  The validation rules the three forms build with `zod`: a minimum length, the e-mail
  check and a choice among fixed values, each failed rule giving an issue at a field.
  The e-mail check is the pattern of zod 3's `string().email()`, matched without regard
  to ASCII case: a local part of letters, digits and `_ ' + - .` that neither starts nor
  ends with a dot (nor ends with `'`), one `@`, then dot-separated labels of letters,
  digits and dashes that start with a letter or digit, ending in a top-level label of at
  least two letters; no two dots in a row anywhere.
*/
module Schema {
  import opened Common

  /** A failed rule: the field it is reported at (one of the form's fields, `F`) and
      its message. */
  datatype Issue<F> = Issue(path: F, message: string)

  /** The issue of one rule, if it fails. */
  function Check<F(!new)>(ok: bool, path: F, message: string): (r: seq<Issue<F>>)
    ensures r == [] <==> ok
    ensures !ok ==> r == [Issue(path, message)]
    ensures forall x :: x in r <==> !ok && x == Issue(path, message)
  {
    if ok then [] else [Issue(path, message)]
  }

  /** `z.string().min(n)`. */
  predicate MinLength(s: string, n: nat) { |s| >= n }

  /** The options of `z.enum` as its message lists them: each in single quotes, joined
      by " | ". */
  function QuotedOptions(options: seq<string>): string
  {
    if |options| == 0 then ""
    else if |options| == 1 then "'" + options[0] + "'"
    else "'" + options[0] + "' | " + QuotedOptions(options[1..])
  }

  /** The message of a failed `z.enum(options)` for a string that is not one of them. */
  function EnumMessage(options: seq<string>, received: string): string
  {
    "Invalid enum value. Expected " + QuotedOptions(options) + ", received '" + received + "'"
  }

  predicate IsAsciiLetter(c: char) { 'a' <= c <= 'z' || 'A' <= c <= 'Z' }
  predicate IsAlnum(c: char) { IsAsciiLetter(c) || '0' <= c <= '9' }

  predicate IsLocalChar(c: char) { IsAlnum(c) || c == '_' || c == '\'' || c == '+' || c == '-' || c == '.' }

  /** `(?!\.)([A-Z0-9_'+\-\.]*)[A-Z0-9_+-]`. */
  predicate LocalOk(local: string)
  {
    && local != []
    && local[0] != '.'
    && (forall c :: c in local ==> IsLocalChar(c))
    && local[|local| - 1] != '.' && local[|local| - 1] != '\''
  }

  /** `[A-Z0-9][A-Z0-9\-]*`. */
  predicate LabelOk(name: string)
  {
    name != [] && IsAlnum(name[0]) && forall c :: c in name ==> IsAlnum(c) || c == '-'
  }

  /** `[A-Z]{2,}`. */
  predicate TopLabelOk(name: string)
  {
    |name| >= 2 && forall c :: c in name ==> IsAsciiLetter(c)
  }

  /** `([A-Z0-9][A-Z0-9\-]*\.)+[A-Z]{2,}`. */
  predicate DomainOk(domain: string)
  {
    var labels := Split(domain, '.');
    && |labels| >= 2
    && (forall k :: 0 <= k < |labels| - 1 ==> LabelOk(labels[k]))
    && TopLabelOk(labels[|labels| - 1])
  }

  predicate NoDoubleDot(s: string)
  {
    forall i :: 0 <= i < |s| - 1 ==> !(s[i] == '.' && s[i + 1] == '.')
  }

  /** `z.string().email()`. The empty string is not an address, and neither is anything
      without an `@`. */
  function IsEmail(s: string): (b: bool)
    ensures b ==> '@' in s && s != ""
  {
    var parts := Split(s, '@');
    if '@' in s then |parts| == 2 && LocalOk(parts[0]) && DomainOk(parts[1]) && NoDoubleDot(s)
    else SplitNoSep(s, '@'); false
  }

  /** An address is the local part, one `@` and the domain, joined back. */
  lemma EmailShape(s: string)
    ensures IsEmail(s) ==> |Split(s, '@')| == 2 && Join(Split(s, '@'), '@') == s
  {
    JoinSplitRoundTrip(s, '@');
  }

  lemma ExampleDomain()
    ensures DomainOk("cd.io")
  {
    ExampleLabels();
    var labels := Split("cd.io", '.');
    assert |labels| == 2 && labels[0] == "cd" && labels[1] == "io";
    assert LabelOk("cd") && TopLabelOk("io") by {
      ExampleLabelChars();
    }
  }

  lemma ExampleLabels()
    ensures Split("cd.io", '.') == ["cd", "io"]
  {
    assert "cd.io" == "cd" + ['.'] + "io";
    assert '.' !in "cd" && '.' !in "io";
    SplitAtSep("cd", "io", '.');
    SplitNoSep("io", '.');
  }

  lemma ExampleLabelChars()
    ensures LabelOk("cd") && TopLabelOk("io")
  {
    assert forall c :: c in "cd" ==> c == 'c' || c == 'd';
    assert forall c :: c in "io" ==> c == 'i' || c == 'o';
  }

  lemma ExampleParts()
    ensures Split("ab@cd.io", '@') == ["ab", "cd.io"]
  {
    assert "ab@cd.io" == "ab" + ['@'] + "cd.io";
    SplitAtSep("ab", "cd.io", '@');
    SplitNoSep("cd.io", '@');
  }

  /** A plain address passes. */
  lemma EmailExample()
    ensures IsEmail("ab@cd.io")
  {
    ExampleParts();
    ExampleDomain();
    ExampleLocal();
    var parts := Split("ab@cd.io", '@');
    assert |parts| == 2 && parts[0] == "ab" && parts[1] == "cd.io";
  }

  lemma ExampleLocal()
    ensures LocalOk("ab") && NoDoubleDot("ab@cd.io")
  {
    assert forall c :: c in "ab" ==> c == 'a' || c == 'b';
  }
}
