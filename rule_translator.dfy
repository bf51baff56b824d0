/** The rule translator: a commitlint rule name becomes a fixed Chinese
    explanation, and an unknown rule keeps its original message behind a
    fixed Chinese prefix. */
module RuleTranslator {

  /** The fixed translation table, exactly its fourteen rule names. */
  const RuleNameToChinese: map<string, string> := map[
    "type-empty" := "type(类型)不能为空",
    "type-case" := "type(类型)大小写不符合规范",
    "scope-empty" := "scope(范围)不能为空",
    "scope-case" := "scope(范围)大小写不符合规范",
    "subject-empty" := "subject(描述)不能为空",
    "subject-case" := "subject(描述)大小写不符合规范",
    "subject-max-length" := "subject(描述)长度超过最大限制",
    "subject-min-length" := "subject(描述)长度小于最小限制",
    "header-max-length" := "标题长度超过最大限制",
    "header-case" := "标题大小写不符合规范",
    "body-empty" := "正文不能为空",
    "body-max-line-length" := "正文单行长度超过最大限制",
    "footer-empty" := "页脚不能为空",
    "footer-max-line-length" := "页脚单行长度超过最大限制"
  ]

  /** Prefix put before the original message of a rule the table does not know. */
  const FallbackPrefix: string := "不符合规范: "

  /** The translation of one finding. The source tests the looked-up entry for
      truthiness, so a missing entry and an empty one both fall back. */
  function MapMessageToChinese(message: string, name: string): (r: string)
    ensures name in RuleNameToChinese && RuleNameToChinese[name] != "" ==> r == RuleNameToChinese[name]
    ensures !(name in RuleNameToChinese && RuleNameToChinese[name] != "") ==> r == FallbackPrefix + message
  {
    var cn := if name in RuleNameToChinese then RuleNameToChinese[name] else "";
    if cn != "" then cn else FallbackPrefix + message
  }

  /** No table entry is empty, so the truthiness test on the looked-up entry
      is the same as a test for the name's presence in the table. */
  lemma TableEntriesNonEmpty(name: string)
    requires name in RuleNameToChinese
    ensures RuleNameToChinese[name] != ""
  {
  }

  /** The table holds exactly the fourteen rule names. */
  lemma TableKeys()
    ensures RuleNameToChinese.Keys == {
      "type-empty", "type-case", "scope-empty", "scope-case",
      "subject-empty", "subject-case", "subject-max-length", "subject-min-length",
      "header-max-length", "header-case", "body-empty", "body-max-line-length",
      "footer-empty", "footer-max-line-length"}
  {
  }

  /** A known rule name is translated to its table entry, whatever the message. */
  lemma KnownRuleTranslation(message: string, name: string)
    requires name in RuleNameToChinese
    ensures MapMessageToChinese(message, name) == RuleNameToChinese[name]
    ensures forall other :: MapMessageToChinese(other, name) == MapMessageToChinese(message, name)
  {
    TableEntriesNonEmpty(name);
  }

  /** An unknown rule name keeps the message, unchanged, after the fallback prefix. */
  lemma UnknownRuleTranslation(message: string, name: string)
    requires name !in RuleNameToChinese
    ensures MapMessageToChinese(message, name) == FallbackPrefix + message
    ensures MapMessageToChinese(message, name)[|FallbackPrefix|..] == message
  {
  }

  /** The fourteen table strings, written out one by one. */
  lemma KnownRuleStrings(message: string)
    ensures MapMessageToChinese(message, "type-empty") == "type(类型)不能为空"
    ensures MapMessageToChinese(message, "type-case") == "type(类型)大小写不符合规范"
    ensures MapMessageToChinese(message, "scope-empty") == "scope(范围)不能为空"
    ensures MapMessageToChinese(message, "scope-case") == "scope(范围)大小写不符合规范"
    ensures MapMessageToChinese(message, "subject-empty") == "subject(描述)不能为空"
    ensures MapMessageToChinese(message, "subject-case") == "subject(描述)大小写不符合规范"
    ensures MapMessageToChinese(message, "subject-max-length") == "subject(描述)长度超过最大限制"
    ensures MapMessageToChinese(message, "subject-min-length") == "subject(描述)长度小于最小限制"
    ensures MapMessageToChinese(message, "header-max-length") == "标题长度超过最大限制"
    ensures MapMessageToChinese(message, "header-case") == "标题大小写不符合规范"
    ensures MapMessageToChinese(message, "body-empty") == "正文不能为空"
    ensures MapMessageToChinese(message, "body-max-line-length") == "正文单行长度超过最大限制"
    ensures MapMessageToChinese(message, "footer-empty") == "页脚不能为空"
    ensures MapMessageToChinese(message, "footer-max-line-length") == "页脚单行长度超过最大限制"
  {
  }

  /** A rule the table does not know, such as "custom-rule", keeps its message. */
  lemma CustomRuleKeepsMessage()
    ensures MapMessageToChinese("oops", "custom-rule") == "不符合规范: oops"
  {
    UnknownRuleTranslation("oops", "custom-rule");
  }
}
