/** QuestionForm of main/server/views.py: three character fields with
    placeholder initial values, and a form-level check that refuses a question
    still carrying any of the placeholders. */
module QuestionForm {

  /** The placeholder values a new question form starts with. */
  const TitleDefault: string := "Question title"
  const ContentDefault: string := "question content"
  const TagDefault: string := "tag1"

  const TagMessage: string := "Please change the tag from default value"
  const ContentMessage: string := "Please change content from default value"
  const TitleMessage: string := "Please change title from default value"

  /** The maximum lengths the three fields declare. */
  const TitleMax: nat := 250
  const ContentMax: nat := 5000
  const TagsMax: nat := 250

  /** What clean() does: hand back the cleaned data, raise the validation
      error with a message, or fail on a field that is missing from the
      cleaned data (the field's own validation rejected it). */
  datatype Verdict = Accepted(data: map<string, string>) | Rejected(message: string) | MissingField(name: string)

  /** Whether a submitted field survives its own CharField validation: it is
      required, so present and non-empty, and at most `max` long. */
  predicate FieldOk(post: map<string, string>, name: string, max: nat)
  {
    name in post && 0 < |post[name]| <= max
  }

  /** The cleaned data field validation produces: the submitted value of every
      field that passed, and nothing else. */
  function CleanFields(post: map<string, string>): (cleaned: map<string, string>)
    ensures "title" in cleaned <==> FieldOk(post, "title", TitleMax)
    ensures "content" in cleaned <==> FieldOk(post, "content", ContentMax)
    ensures "tags" in cleaned <==> FieldOk(post, "tags", TagsMax)
    ensures forall k :: k in cleaned ==> k in post && cleaned[k] == post[k]
    ensures forall k :: k in cleaned ==> k == "title" || k == "content" || k == "tags"
  {
    map k | k in post && ((k == "title" && FieldOk(post, k, TitleMax)) ||
                          (k == "content" && FieldOk(post, k, ContentMax)) ||
                          (k == "tags" && FieldOk(post, k, TagsMax)))
      :: post[k]
  }

  /** QuestionForm.clean: the tags, then the content, then the title are
      compared with their placeholders, and the first still equal to it
      rejects the question. */
  function Clean(cleaned: map<string, string>): (v: Verdict)
    ensures v.Accepted? <==>
      "tags" in cleaned && "content" in cleaned && "title" in cleaned &&
      cleaned["tags"] != TagDefault && cleaned["content"] != ContentDefault &&
      cleaned["title"] != TitleDefault
    ensures v.Accepted? ==> v.data == cleaned
    ensures v.Rejected? ==> v.message in {TagMessage, ContentMessage, TitleMessage}
    ensures v == Rejected(TagMessage) <==> "tags" in cleaned && cleaned["tags"] == TagDefault
    ensures v == MissingField("tags") <==> "tags" !in cleaned
    ensures v == MissingField("content") <==>
      "tags" in cleaned && cleaned["tags"] != TagDefault && "content" !in cleaned
    ensures v == MissingField("title") <==>
      "tags" in cleaned && cleaned["tags"] != TagDefault &&
      "content" in cleaned && cleaned["content"] != ContentDefault && "title" !in cleaned
    ensures v.MissingField? ==> v.name in {"tags", "content", "title"}
  {
    if "tags" !in cleaned then MissingField("tags")
    else if cleaned["tags"] == TagDefault then Rejected(TagMessage)
    else if "content" !in cleaned then MissingField("content")
    else if cleaned["content"] == ContentDefault then Rejected(ContentMessage)
    else if "title" !in cleaned then MissingField("title")
    else if cleaned["title"] == TitleDefault then Rejected(TitleMessage)
    else Accepted(cleaned)
  }

  /** The checks run in order: a rejection names the first placeholder still
      present, and a field missing before it is reached fails first. */
  lemma CleanChecksInOrder(cleaned: map<string, string>)
    ensures Clean(cleaned) == Rejected(ContentMessage) <==>
      "tags" in cleaned && cleaned["tags"] != TagDefault &&
      "content" in cleaned && cleaned["content"] == ContentDefault
    ensures Clean(cleaned) == Rejected(TitleMessage) <==>
      "tags" in cleaned && cleaned["tags"] != TagDefault &&
      "content" in cleaned && cleaned["content"] != ContentDefault &&
      "title" in cleaned && cleaned["title"] == TitleDefault
  {
  }

  /** The form as first shown, submitted unchanged, passes field validation
      and is then rejected for its tag. */
  lemma UnchangedFormRejected()
    ensures var post := map["title" := TitleDefault, "content" := ContentDefault, "tags" := TagDefault];
      Clean(CleanFields(post)) == Rejected(TagMessage)
  {
    var post := map["title" := TitleDefault, "content" := ContentDefault, "tags" := TagDefault];
    assert FieldOk(post, "tags", TagsMax);
  }

  /** A submission whose fields all pass their own validation never fails on a
      missing field: it is accepted or rejected. */
  lemma ValidFieldsReachVerdict(post: map<string, string>)
    requires FieldOk(post, "title", TitleMax) && FieldOk(post, "content", ContentMax) &&
      FieldOk(post, "tags", TagsMax)
    ensures !Clean(CleanFields(post)).MissingField?
    ensures Clean(CleanFields(post)).Accepted? ==> Clean(CleanFields(post)).data == CleanFields(post)
  {
  }
}
