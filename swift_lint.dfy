/** The SwiftLint directives both emitters write around the generated code. */
module SwiftLint {
  import opened Text

  /** The two rules the emitters switch off and on again. */
  datatype Rule = FileLength | TypeBodyLength

  /** A directive: `disable` or `enable` one rule. */
  datatype Directive = Disable(rule: Rule) | Enable(rule: Rule)

  /** `Rule.rawValue`, which is also its `description`. */
  function RawValue(rule: Rule): (r: string)
    ensures |r| > 0 && ' ' !in r
    ensures r == "file_length" <==> rule == FileLength
  {
    match rule
    case FileLength => "file_length"
    case TypeBodyLength => "type_body_length"
  }

  const DirectivePrefix: string := "// swiftlint:"

  /** `SwiftLint.description`: the comment that switches `rule` off or on. */
  function Description(directive: Directive): (r: string)
    ensures StartsWith(r, DirectivePrefix)
    ensures directive.Disable? ==> r == DirectivePrefix + "disable " + RawValue(directive.rule)
    ensures directive.Enable? ==> r == DirectivePrefix + "enable " + RawValue(directive.rule)
  {
    var text := DirectivePrefix;
    match directive
    case Disable(rule) => text + "disable " + RawValue(rule)
    case Enable(rule) => text + "enable " + RawValue(rule)
  }

  /** Different directives are rendered as different comments. */
  lemma {:induction false} DescriptionInjective(a: Directive, b: Directive)
    requires Description(a) == Description(b)
    ensures a == b
  {
    var da, db := Description(a), Description(b);
    var k := |DirectivePrefix|;
    assert da[k] == (if a.Disable? then 'd' else 'e');
    assert db[k] == (if b.Disable? then 'd' else 'e');
    var offset := if a.Disable? then k + |"disable "| else k + |"enable "|;
    assert da[offset..] == RawValue(a.rule);
    assert db[offset..] == RawValue(b.rule);
  }
}
