/** Values read from the remote forum's JSON records, and the Bunch record the
    loader normalises them into (biostar/forum/management/commands/load.py). */
module Records {

  datatype Option<+T> = None | Some(value: T)

  /** The dynamically typed values the remote record can hold for a field. */
  datatype Value = Null | Int(i: int) | Str(s: string)

  /** A decoded remote record: field name to value. */
  type Raw = map<string, Value>

  /** Python's dict.get(key, default). */
  function Get(raw: Raw, key: string, default: Value): (v: Value)
    ensures key in raw ==> v == raw[key]
    ensures key !in raw ==> v == default
  {
    if key in raw then raw[key] else default
  }

  /** The attributes of a Bunch. */
  datatype Bunch = Bunch(
    template: Value, uid: Value, text: Value, status: Value, tagVal: Value,
    html: Value, title: Value, kind: Value, viewCount: Value,
    creationDate: Value, lasteditDate: Value, parentId: Value, rootId: Value,
    authorId: Value)

  /** The attribute a keyword argument sets, or its "" default from Bunch.__init__. */
  function Attr(kwargs: map<string, Value>, name: string): Value
  {
    Get(kwargs, name, Str(""))
  }

  /** After Bunch(**kwargs), attribute `name` holds `v`: the keyword argument
      of that name when there is one, else the "" Bunch.__init__ sets. */
  predicate KeywordOrBlank(kwargs: map<string, Value>, name: string, v: Value)
  {
    (name in kwargs ==> v == kwargs[name]) && (name !in kwargs ==> v == Str(""))
  }

  /** Bunch(**kwargs): every attribute starts as "" and is then overwritten by the
      keyword argument of the same name, when there is one. */
  function NewBunch(kwargs: map<string, Value>): (b: Bunch)
    ensures KeywordOrBlank(kwargs, "template", b.template)
    ensures KeywordOrBlank(kwargs, "uid", b.uid)
    ensures KeywordOrBlank(kwargs, "text", b.text)
    ensures KeywordOrBlank(kwargs, "status", b.status)
    ensures KeywordOrBlank(kwargs, "tag_val", b.tagVal)
    ensures KeywordOrBlank(kwargs, "html", b.html)
    ensures KeywordOrBlank(kwargs, "title", b.title)
    ensures KeywordOrBlank(kwargs, "type", b.kind)
    ensures KeywordOrBlank(kwargs, "view_count", b.viewCount)
    ensures KeywordOrBlank(kwargs, "creation_date", b.creationDate)
    ensures KeywordOrBlank(kwargs, "lastedit_date", b.lasteditDate)
    ensures KeywordOrBlank(kwargs, "parent_id", b.parentId)
    ensures KeywordOrBlank(kwargs, "root_id", b.rootId)
    ensures KeywordOrBlank(kwargs, "author_id", b.authorId)
  {
    Bunch(
      Attr(kwargs, "template"), Attr(kwargs, "uid"), Attr(kwargs, "text"),
      Attr(kwargs, "status"), Attr(kwargs, "tag_val"), Attr(kwargs, "html"),
      Attr(kwargs, "title"), Attr(kwargs, "type"), Attr(kwargs, "view_count"),
      Attr(kwargs, "creation_date"), Attr(kwargs, "lastedit_date"),
      Attr(kwargs, "parent_id"), Attr(kwargs, "root_id"), Attr(kwargs, "author_id"))
  }

  /** bunch_data: each Bunch attribute is the remote field it is renamed from,
      with the default of dict.get when the field is absent; `strip` stands for
      util.strip_tags. The template attribute keeps its "" default. */
  function BunchData(raw: Raw, strip: Value -> Value): (b: Bunch)
    ensures b.template == Str("")
    ensures b.text == strip(b.html)
  {
    var html := Get(raw, "xhtml", Str(""));
    Bunch(
      Str(""), Get(raw, "id", Null), strip(html), Get(raw, "status_id", Null),
      Get(raw, "tag_val", Str("")), html, Get(raw, "title", Str("")),
      Get(raw, "type_id", Null), Get(raw, "view_count", Int(0)),
      Get(raw, "creation_date", Null), Get(raw, "lastedit_date", Null),
      Get(raw, "parent_id", Null), Get(raw, "root_id", Null),
      Get(raw, "author_id", Str("")))
  }

  /** bunch_data builds its Bunch from keyword arguments: the dictionary of
      renamed fields, passed to Bunch(**data). */
  lemma BunchDataFromKeywords(raw: Raw, strip: Value -> Value)
    ensures BunchData(raw, strip) == NewBunch(Keywords(raw, strip))
  {
    var kw := Keywords(raw, strip);
    assert Attr(kw, "template") == Str("");
    assert Attr(kw, "uid") == Get(raw, "id", Null);
    assert Attr(kw, "text") == strip(Get(raw, "xhtml", Str("")));
    assert Attr(kw, "status") == Get(raw, "status_id", Null);
    assert Attr(kw, "tag_val") == Get(raw, "tag_val", Str(""));
    assert Attr(kw, "html") == Get(raw, "xhtml", Str(""));
    assert Attr(kw, "title") == Get(raw, "title", Str(""));
    assert Attr(kw, "type") == Get(raw, "type_id", Null);
    assert Attr(kw, "view_count") == Get(raw, "view_count", Int(0));
    assert Attr(kw, "creation_date") == Get(raw, "creation_date", Null);
    assert Attr(kw, "lastedit_date") == Get(raw, "lastedit_date", Null);
    assert Attr(kw, "parent_id") == Get(raw, "parent_id", Null);
    assert Attr(kw, "root_id") == Get(raw, "root_id", Null);
    assert Attr(kw, "author_id") == Get(raw, "author_id", Str(""));
  }

  /** The dictionary bunch_data passes to Bunch(**data): the remote fields
      under their Bunch names. */
  function Keywords(raw: Raw, strip: Value -> Value): (kw: map<string, Value>)
    ensures kw.Keys == {"status", "tag_val", "html", "text", "title", "type", "view_count",
      "creation_date", "lastedit_date", "parent_id", "root_id", "uid", "author_id"}
  {
    map[
      "status" := Get(raw, "status_id", Null),
      "tag_val" := Get(raw, "tag_val", Str("")),
      "html" := Get(raw, "xhtml", Str("")),
      "text" := strip(Get(raw, "xhtml", Str(""))),
      "title" := Get(raw, "title", Str("")),
      "type" := Get(raw, "type_id", Null),
      "view_count" := Get(raw, "view_count", Int(0)),
      "creation_date" := Get(raw, "creation_date", Null),
      "lastedit_date" := Get(raw, "lastedit_date", Null),
      "parent_id" := Get(raw, "parent_id", Null),
      "root_id" := Get(raw, "root_id", Null),
      "uid" := Get(raw, "id", Null),
      "author_id" := Get(raw, "author_id", Str(""))]
  }

  /** The remote field `key`, or `default` when the record lacks it. */
  predicate FieldOr(raw: Raw, key: string, default: Value, v: Value)
  {
    (key in raw ==> v == raw[key]) && (key !in raw ==> v == default)
  }

  /** Each attribute bunch_data fills comes from its remote field, and falls
      back to that field's dict.get default when the field is absent. */
  lemma BunchDataFields(raw: Raw, strip: Value -> Value)
    ensures var b := BunchData(raw, strip);
      FieldOr(raw, "id", Null, b.uid) &&
      FieldOr(raw, "status_id", Null, b.status) &&
      FieldOr(raw, "tag_val", Str(""), b.tagVal) &&
      FieldOr(raw, "xhtml", Str(""), b.html) &&
      FieldOr(raw, "title", Str(""), b.title) &&
      FieldOr(raw, "type_id", Null, b.kind) &&
      FieldOr(raw, "view_count", Int(0), b.viewCount) &&
      FieldOr(raw, "creation_date", Null, b.creationDate) &&
      FieldOr(raw, "lastedit_date", Null, b.lasteditDate) &&
      FieldOr(raw, "parent_id", Null, b.parentId) &&
      FieldOr(raw, "root_id", Null, b.rootId) &&
      FieldOr(raw, "author_id", Str(""), b.authorId)
  {
  }

  /** A record with none of the fields still normalises, to the defaults. */
  lemma EmptyRecordDefaults(strip: Value -> Value)
    ensures BunchData(map[], strip) ==
      Bunch(Str(""), Null, strip(Str("")), Null, Str(""), Str(""), Str(""), Null,
            Int(0), Null, Null, Null, Null, Str(""))
  {
  }

  /** The plain-text body depends on the rendered body only. */
  lemma TextFollowsHtml(a: Raw, b: Raw, strip: Value -> Value)
    requires Get(a, "xhtml", Str("")) == Get(b, "xhtml", Str(""))
    ensures BunchData(a, strip).text == BunchData(b, strip).text
  {
  }
}
