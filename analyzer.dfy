/** `OllamaAnalyzer`: how a requested model name is matched against the
    models the local Ollama server lists, the two shapes its answers come
    in (plain dictionaries and typed response objects), the text a chat
    call yields, and the line-based fallback that turns a reply which is
    not JSON into quotes or topics.

    The Ollama client is an input: a listing or a chat call is a `Result`
    whose `Failure` is the exception it raised, and `json.loads` is an
    abstract `parse` function. */
module Analyzer {
  import opened Wrappers
  import opened Text

  // ---------------------------------------------------------------------
  // `_normalize_model_name`
  // ---------------------------------------------------------------------

  /** `name.strip().lower().split(":")[0]`: the model name without its
      tag, so that `llama3.2` and `llama3.2:latest` name the same model. */
  function NormalizeModelName(name: string): (r: string)
    ensures ':' !in r
  {
    SplitOn(Lower(Strip(name)), {':'})[0]
  }

  /** The normalised name is the stripped, lower-cased name up to its
      first colon. */
  lemma NormalizeKeepsHead(name: string)
    ensures var t := Lower(Strip(name));
      var r := NormalizeModelName(name);
      && |r| <= |t| && r == t[..|r|]
      && (|r| < |t| ==> t[|r|] == ':')
  {
    SplitFirstPiece(Lower(Strip(name)), {':'});
  }

  /** The first piece of a split is the text up to the first separator. */
  lemma {:induction false} SplitFirstPiece(s: string, seps: set<char>)
    ensures var h := SplitOn(s, seps)[0];
      && |h| <= |s| && h == s[..|h|]
      && (|h| < |s| ==> s[|h|] in seps)
    decreases |s|
  {
    if s != [] && s[0] !in seps {
      SplitFirstPiece(s[1..], seps);
      var h := SplitOn(s[1..], seps)[0];
      assert SplitOn(s, seps)[0] == [s[0]] + h;
      assert s[..|h| + 1] == [s[0]] + s[1..][..|h|];
    }
  }

  lemma LowerConcat(a: string, b: string)
    ensures Lower(a + b) == Lower(a) + Lower(b)
  {
    assert forall i :: 0 <= i < |a + b| ==> Lower(a + b)[i] == (Lower(a) + Lower(b))[i];
  }

  /** A tagged name normalises to its lower-case base: the tag, whatever
      it is, and the colon before it are dropped. */
  lemma {:induction false} NormalizeDropsTag(base: string, tag: string)
    requires base != [] && Trimmed(base) && ':' !in base && Lower(base) == base
    ensures NormalizeModelName(base + ":" + tag) == base
    ensures NormalizeModelName(base) == base
  {
    var s := base + ":" + tag;
    assert s[0] == base[0] && s[|base|] == ':';
    assert TrimLeft(s) == s;
    TrimRightKeepsPast(s, |base|);
    var t := Strip(s);
    var rest := t[|base| + 1..];
    assert t == base + ":" + rest by {
      assert t[..|base| + 1] == s[..|base| + 1] == base + ":";
      assert t == t[..|base| + 1] + rest;
    }
    var lowTail := ":" + Lower(rest);
    LowerConcat(base, ":" + rest);
    LowerConcat(":", rest);
    assert Lower(":") == ":";
    assert Lower(t) == base + lowTail;
    SplitPrefix(base, lowTail, {':'});
    assert SplitOn(lowTail, {':'}) == [""] + SplitOn(Lower(rest), {':'}) by {
      assert lowTail[1..] == Lower(rest);
    }
    assert base + "" == base;
    SplitPrefix(base, "", {':'});
  }

  // ---------------------------------------------------------------------
  // `_extract_model_names`
  // ---------------------------------------------------------------------

  /** One entry of a model listing; `None` is a missing key or attribute. */
  datatype ModelEntry = ModelEntry(name: Option<string>, model: Option<string>)

  /** The two shapes `client.list()` answers in; `models` is `None` when
      the key or attribute is missing. */
  datatype ListResponse =
    | DictList(models: Option<seq<ModelEntry>>)
    | ObjectList(models: Option<seq<ModelEntry>>)

  /** Python truthiness of an optional string. */
  predicate Truthy(v: Option<string>) {
    v.Some? && v.value != ""
  }

  /** `first or second`, kept only when the outcome is truthy. */
  function FirstTruthy(first: Option<string>, second: Option<string>): (r: Option<string>)
    ensures r.Some? <==> Truthy(first) || Truthy(second)
    ensures r.Some? ==> r.value != ""
    ensures Truthy(first) ==> r == first
    ensures !Truthy(first) ==> r == (if Truthy(second) then second else None)
  {
    if Truthy(first) then first else if Truthy(second) then second else None
  }

  /** A dictionary entry prefers `name` to `model`. */
  function DictEntryName(e: ModelEntry): Option<string> {
    FirstTruthy(e.name, e.model)
  }

  /** A typed entry prefers `model` to `name`. */
  function ObjectEntryName(e: ModelEntry): Option<string> {
    FirstTruthy(e.model, e.name)
  }

  function EntriesOf(response: ListResponse): seq<ModelEntry> {
    if response.models.Some? then response.models.value else []
  }

  function NamePicker(response: ListResponse): ModelEntry -> Option<string> {
    if response.DictList? then DictEntryName else ObjectEntryName
  }

  /** Keep `f(x)` for every `x` it is defined on, in order. */
  function FilterMap<T, U>(xs: seq<T>, f: T -> Option<U>): (r: seq<U>)
    ensures |r| <= |xs|
    decreases |xs|
  {
    if xs == [] then []
    else
      var y := f(xs[|xs| - 1]);
      FilterMap(xs[..|xs| - 1], f) + (if y.Some? then [y.value] else [])
  }

  /** Filtering one more element of `xs` appends what `f` keeps of it. */
  lemma FilterMapSnoc<T, U>(xs: seq<T>, ys: seq<T>, n: nat, f: T -> Option<U>)
    requires n < |xs| && ys == xs[..n + 1]
    ensures FilterMap(ys, f) == FilterMap(xs[..n], f) + (if f(xs[n]).Some? then [f(xs[n]).value] else [])
  {
    assert ys[..n] == xs[..n];
  }

  /** Filtering a concatenation filters each part, keeping their order. */
  lemma {:induction false} FilterMapAppend<T, U>(xs: seq<T>, ys: seq<T>, f: T -> Option<U>)
    ensures FilterMap(xs + ys, f) == FilterMap(xs, f) + FilterMap(ys, f)
    decreases |ys|
  {
    if ys == [] {
      assert xs + ys == xs;
    } else {
      var init := ys[..|ys| - 1];
      FilterMapAppend(xs, init, f);
      assert (xs + ys)[..|xs + ys| - 1] == xs + init;
      assert (xs + ys)[|xs + ys| - 1] == ys[|ys| - 1];
    }
  }

  /** Every kept value is `f` of some element. */
  lemma {:induction false} FilterMapFrom<T, U>(xs: seq<T>, f: T -> Option<U>)
    ensures forall i :: 0 <= i < |FilterMap(xs, f)| ==>
      exists j :: 0 <= j < |xs| && f(xs[j]) == Some(FilterMap(xs, f)[i])
    decreases |xs|
  {
    if xs != [] {
      var init := xs[..|xs| - 1];
      FilterMapFrom(init, f);
      forall i | 0 <= i < |FilterMap(xs, f)|
        ensures exists j :: 0 <= j < |xs| && f(xs[j]) == Some(FilterMap(xs, f)[i])
      {
        var y := f(xs[|xs| - 1]);
        assert FilterMap(xs, f) == FilterMap(init, f) + (if y.Some? then [y.value] else []);
        if i < |FilterMap(init, f)| {
          var j :| 0 <= j < |init| && f(init[j]) == Some(FilterMap(init, f)[i]);
          assert xs[j] == init[j];
          assert FilterMap(xs, f)[i] == FilterMap(init, f)[i];
        } else {
          assert f(xs[|xs| - 1]) == Some(FilterMap(xs, f)[i]);
          assert 0 <= |xs| - 1 < |xs|;
        }
      }
    } else {
      assert FilterMap(xs, f) == [];
    }
  }

  /** What the listing names, in its own order. */
  function ModelNames(response: ListResponse): (r: seq<string>)
    ensures |r| <= |EntriesOf(response)|
    ensures forall i :: 0 <= i < |r| ==> r[i] != ""
  {
    FilterMapFrom(EntriesOf(response), NamePicker(response));
    FilterMap(EntriesOf(response), NamePicker(response))
  }

  /** `_extract_model_names(response)`. */
  method ExtractModelNames(response: ListResponse) returns (names: seq<string>)
    ensures names == ModelNames(response)
  {
    names := [];
    var models := EntriesOf(response);
    for i := 0 to |models|
      invariant names == FilterMap(models[..i], NamePicker(response))
    {
      var entry := models[i];
      var name := if response.DictList? then FirstTruthy(entry.name, entry.model)
                  else FirstTruthy(entry.model, entry.name);
      FilterMapSnoc(models, models[..i + 1], i, NamePicker(response));
      if Truthy(name) {
        names := names + [name.value];
      }
    }
    assert models[..|models|] == models;
  }

  /** `list_available_models`: a listing that raised gives no names. */
  function Available(reply: Result<ListResponse, string>): (r: seq<string>)
    ensures reply.Failure? ==> r == []
    ensures forall i :: 0 <= i < |r| ==> r[i] != ""
  {
    if reply.Success? then ModelNames(reply.value) else []
  }

  // ---------------------------------------------------------------------
  // `_extract_chat_content` and `_generate_response`
  // ---------------------------------------------------------------------

  /** The `message` of a chat answer; `content` is `None` when missing. */
  datatype Message = Message(content: Option<string>)

  /** The two shapes `client.chat()` answers in; `message` is `None` when
      the key or attribute is missing. */
  datatype ChatResponse =
    | DictChat(message: Option<Message>)
    | ObjectChat(message: Option<Message>)

  /** `_extract_chat_content(response)`. */
  function ExtractChatContent(response: ChatResponse): (r: string)
    ensures r != "" ==> response.message.Some? && response.message.value.content == Some(r)
    ensures r == "" <==> response.message.None? || !Truthy(response.message.value.content)
  {
    match response
    case DictChat(m) =>
      var message := if m.Some? then m.value else Message(None);
      if message.content.Some? then message.content.value else ""
    case ObjectChat(m) =>
      if m.Some? && Truthy(m.value.content) then m.value.content.value else ""
  }

  const EmptyResponseText := "Error: " + "Empty model response"
  const ErrorPrefix := "Error: "

  /** `_generate_response`: the reply text, never empty. */
  function GenerateResponse(reply: Result<ChatResponse, string>): (r: string)
    ensures r != ""
    ensures reply.Failure? ==> r == ErrorPrefix + reply.error
    ensures reply.Success? && ExtractChatContent(reply.value) != "" ==> r == ExtractChatContent(reply.value)
    ensures reply.Success? && ExtractChatContent(reply.value) == "" ==> r == EmptyResponseText
  {
    if reply.Failure? then ErrorPrefix + reply.error
    else
      var content := ExtractChatContent(reply.value);
      if content != "" then content else EmptyResponseText
  }

  // ---------------------------------------------------------------------
  // Model matching
  // ---------------------------------------------------------------------

  /** A listed `name` stands for the requested `model`: the two normalise
      alike or agree up to case. */
  predicate Matches(model: string, name: string) {
    NormalizeModelName(name) == NormalizeModelName(model) || Lower(name) == Lower(model)
  }

  predicate AnyMatch(model: string, names: seq<string>) {
    exists i :: 0 <= i < |names| && Matches(model, names[i])
  }

  /** The first listed name that stands for `model`. */
  function FirstMatch(model: string, names: seq<string>): (r: Option<string>)
    ensures r.Some? ==> r.value in names && Matches(model, r.value)
    decreases |names|
  {
    if names == [] then None
    else if Matches(model, names[0]) then Some(names[0])
    else FirstMatch(model, names[1..])
  }

  /** Some name is found exactly when some listed name matches. */
  lemma {:induction false} FirstMatchFindsAny(model: string, names: seq<string>)
    ensures FirstMatch(model, names).Some? <==> AnyMatch(model, names)
    decreases |names|
  {
    if names != [] && !Matches(model, names[0]) {
      FirstMatchFindsAny(model, names[1..]);
      if AnyMatch(model, names) {
        var i :| 0 <= i < |names| && Matches(model, names[i]);
        assert names[1..][i - 1] == names[i];
      }
    }
  }

  /** `FirstMatch` is the name at the first matching position. */
  lemma {:induction false} FirstMatchAt(model: string, names: seq<string>, i: nat)
    requires i < |names| && Matches(model, names[i])
    requires forall k :: 0 <= k < i ==> !Matches(model, names[k])
    ensures FirstMatch(model, names) == Some(names[i])
    decreases i
  {
    if i > 0 {
      FirstMatchAt(model, names[1..], i - 1);
    }
  }

  /** The JSON value a reply decodes to; `items` of a list are taken as
      text. */
  datatype Json = JsonList(items: seq<string>) | NotAList

  /** The object behind the analysis calls; only `model` changes. */
  class OllamaAnalyzer {
    var model: string
    const keepAlive: string

    constructor(model: string)
      ensures this.model == model && keepAlive == "0s"
    {
      this.model := model;
      keepAlive := "0s";
    }

    /** `list_available_models()` for the given client answer. */
    method ListAvailableModels(reply: Result<ListResponse, string>) returns (names: seq<string>)
      ensures names == Available(reply)
    {
      if reply.Success? {
        names := ExtractModelNames(reply.value);
      } else {
        names := [];
      }
    }

    /** `check_model_availability()`: true exactly when
        `resolve_model_name()` would find a name in the same listing. */
    method CheckModelAvailability(reply: Result<ListResponse, string>) returns (ok: bool)
      ensures ok <==> AnyMatch(model, Available(reply))
      ensures ok <==> FirstMatch(model, Available(reply)).Some?
    {
      var availableModels := ListAvailableModels(reply);
      FirstMatchFindsAny(model, availableModels);
      if availableModels == [] {
        return false;
      }
      for i := 0 to |availableModels|
        invariant FirstMatch(model, availableModels) == FirstMatch(model, availableModels[i..])
      {
        var name := availableModels[i];
        if Matches(model, name) {
          return true;
        }
        assert availableModels[i..][1..] == availableModels[i + 1..];
      }
      assert availableModels[|availableModels|..] == [];
      return false;
    }

    /** `resolve_model_name()`. */
    method ResolveModelName(reply: Result<ListResponse, string>) returns (resolved: Option<string>)
      ensures resolved == FirstMatch(model, Available(reply))
    {
      var availableModels := ListAvailableModels(reply);
      for i := 0 to |availableModels|
        invariant FirstMatch(model, availableModels) == FirstMatch(model, availableModels[i..])
      {
        var name := availableModels[i];
        if Matches(model, name) {
          return Some(name);
        }
        assert availableModels[i..][1..] == availableModels[i + 1..];
      }
      assert availableModels[|availableModels|..] == [];
      return None;
    }

    /** `ensure_model()`: `first` is the listing before the pull, `pull` the
        error the pull raised (if any), `second` the listing after it. */
    method EnsureModel(first: Result<ListResponse, string>, pull: Option<string>,
                       second: Result<ListResponse, string>) returns (ok: bool)
      modifies this
      ensures ok <==> FirstMatch(old(model), Available(first)).Some?
                      || (pull.None? && FirstMatch(old(model), Available(second)).Some?)
      ensures FirstMatch(old(model), Available(first)).Some? ==>
                model == FirstMatch(old(model), Available(first)).value
      ensures FirstMatch(old(model), Available(first)).None? && ok ==>
                model == FirstMatch(old(model), Available(second)).value
      ensures ok ==> Matches(old(model), model)
      ensures !ok ==> model == old(model)
    {
      var resolved := ResolveModelName(first);
      if resolved.Some? && resolved.value != "" {
        model := resolved.value;
        ok := true;
      } else if pull.Some? {
        ok := false;
      } else {
        resolved := ResolveModelName(second);
        if resolved.Some? && resolved.value != "" {
          model := resolved.value;
          ok := true;
        } else {
          ok := false;
        }
      }
    }
  }

  // ---------------------------------------------------------------------
  // Fallback parsing of quotes and topics
  // ---------------------------------------------------------------------

  const Bullets := {'-', '*', '•'}
  const QuoteChars := {'"', '\''}

  /** `re.sub(r'^[-*•]\s*', '', s)`: one leading bullet and the
      whitespace after it. */
  function DropBullet(s: string): (r: string)
    ensures |r| <= |s| && r == s[|s| - |r|..]
    ensures s == [] || s[0] !in Bullets ==> r == s
  {
    if s != [] && s[0] in Bullets then TrimLeft(s[1..]) else s
  }

  /** `s.strip(chars)` for the characters `cs`. */
  function StripChars(s: string, cs: set<char>): (r: string)
    ensures |r| <= |s|
    ensures r != [] ==> r[0] !in cs && r[|r| - 1] !in cs
    ensures s == [] || (s[0] !in cs && s[|s| - 1] !in cs) ==> r == s
    decreases |s|
  {
    if s == [] then s
    else if s[0] in cs then StripChars(s[1..], cs)
    else if s[|s| - 1] in cs then StripChars(s[..|s| - 1], cs)
    else s
  }

  /** Python's `s[:n]`, where a negative `n` counts from the end. */
  function SliceTo<T>(s: seq<T>, n: int): (r: seq<T>)
    ensures |r| <= |s| && r == s[..|r|]
    ensures 0 <= n ==> |r| <= n && (|s| <= n ==> r == s)
    ensures n < 0 ==> |r| == if |s| + n < 0 then 0 else |s| + n
  {
    if 0 <= n then (if |s| <= n then s else s[..n])
    else if |s| + n < 0 then [] else s[..|s| + n]
  }

  function Lines(response: string): seq<string> {
    SplitOn(response, {'\n'})
  }

  /** The quote one reply line gives, if any: the stripped line must be
      non-empty, not a `#` heading and longer than 20 characters before
      its bullet and surrounding quote characters are removed. */
  function QuoteOf(line: string): (r: Option<string>)
    ensures var l := Strip(line);
      r.Some? ==> && l != "" && !StartsWith(l, "#") && |l| > 20
                  && r.value != "" && |r.value| <= |l|
                  && r.value[0] !in QuoteChars && r.value[|r.value| - 1] !in QuoteChars
  {
    var l := Strip(line);
    if l != "" && !StartsWith(l, "#") && |l| > 20 then
      var q := StripChars(DropBullet(l), QuoteChars);
      if q != "" then Some(q) else None
    else None
  }

  /** The topic one reply line gives, if any: like a quote, but of any
      length and with quote characters kept. */
  function TopicOf(line: string): (r: Option<string>)
    ensures var l := Strip(line);
      r.Some? ==> && l != "" && !StartsWith(l, "#") && r.value != ""
                  && |r.value| <= |l|
  {
    var l := Strip(line);
    if l != "" && !StartsWith(l, "#") then
      var t := DropBullet(l);
      if t != "" then Some(t) else None
    else None
  }

  /** The fallback of `extract_quotes`. */
  function FallbackQuotes(response: string, maxQuotes: int): (r: seq<string>)
    ensures 0 <= maxQuotes ==> |r| <= maxQuotes
  {
    SliceTo(FilterMap(Lines(response), QuoteOf), maxQuotes)
  }

  /** The fallback of `extract_topics`. */
  function FallbackTopics(response: string): (r: seq<string>)
    ensures |r| <= 10
  {
    SliceTo(FilterMap(Lines(response), TopicOf), 10)
  }

  /** Every fallback quote or topic is a non-empty piece of text no longer
      than the reply, taken from one of its lines in order. */
  lemma FallbackItems(response: string, maxQuotes: int)
    ensures var q := FallbackQuotes(response, maxQuotes);
      forall i :: 0 <= i < |q| ==> q[i] != "" && |q[i]| <= |response|
    ensures var t := FallbackTopics(response);
      forall i :: 0 <= i < |t| ==> t[i] != "" && |t[i]| <= |response|
  {
    FilterMapFrom(Lines(response), QuoteOf);
    FilterMapFrom(Lines(response), TopicOf);
    LinesAreShort(response);
  }

  lemma {:induction false} LinesAreShort(response: string)
    ensures forall i :: 0 <= i < |Lines(response)| ==> |Lines(response)[i]| <= |response|
    decreases |response|
  {
    if response != [] {
      LinesAreShort(response[1..]);
      var rest := Lines(response[1..]);
      if response[0] !in {'\n'} {
        assert Lines(response) == [[response[0]] + rest[0]] + rest[1..];
      } else {
        assert Lines(response) == [""] + rest;
      }
    }
  }

  /** A reply that is one plain line, long enough, with no heading mark,
      bullet or quote character at its ends, is kept whole both as the
      only quote and as the only topic. */
  lemma PlainLineIsKept(t: string, maxQuotes: int)
    requires '\n' !in t && Trimmed(t) && |t| > 20
    requires t[0] != '#' && t[0] !in Bullets && t[0] !in QuoteChars && t[|t| - 1] !in QuoteChars
    requires 1 <= maxQuotes
    ensures FallbackQuotes(t, maxQuotes) == [t]
    ensures FallbackTopics(t) == [t]
  {
    OneLine(t);
    assert t[..1] != "#";
    assert QuoteOf(t) == Some(t);
    assert TopicOf(t) == Some(t);
    assert FilterMap([t], QuoteOf) == [t] by {
      assert [t][..0] == [];
    }
    assert FilterMap([t], TopicOf) == [t] by {
      assert [t][..0] == [];
    }
  }

  /** Text without a newline is one line. */
  lemma OneLine(t: string)
    requires '\n' !in t
    ensures Lines(t) == [t]
  {
    SplitPrefix(t, "", {'\n'});
    assert t + "" == t;
  }

  /** A model reply with no content that is not JSON comes back as one
      quote and one topic: the error text itself. */
  lemma EmptyReplyIsKept(maxQuotes: int)
    requires 1 <= maxQuotes
    ensures FallbackQuotes(EmptyResponseText, maxQuotes) == [EmptyResponseText]
    ensures FallbackTopics(EmptyResponseText) == [EmptyResponseText]
  {
    var t := EmptyResponseText;
    assert |t| == 27 && t[0] == 'E' && t[26] == 'e';
    assert '\n' !in t;
    PlainLineIsKept(t, maxQuotes);
  }

  /** One pass of the `extract_quotes` fallback loop over `line`. */
  method QuoteStep(line: string) returns (quote: Option<string>)
    ensures quote == QuoteOf(line)
  {
    var l := Strip(line);
    quote := None;
    if l != "" && !StartsWith(l, "#") && |l| > 20 {
      l := DropBullet(l);
      l := StripChars(l, QuoteChars);
      if l != "" {
        quote := Some(l);
      }
    }
  }

  /** One pass of the `extract_topics` fallback loop over `line`. */
  method TopicStep(line: string) returns (topic: Option<string>)
    ensures topic == TopicOf(line)
  {
    var l := Strip(line);
    topic := None;
    if l != "" && !StartsWith(l, "#") {
      l := DropBullet(l);
      if l != "" {
        topic := Some(l);
      }
    }
  }

  /** The fallback branch of `extract_quotes`, line by line. */
  method QuotesFromLines(response: string, maxQuotes: int) returns (quotes: seq<string>)
    ensures quotes == FallbackQuotes(response, maxQuotes)
  {
    var lines := Lines(response);
    quotes := [];
    for i := 0 to |lines|
      invariant quotes == FilterMap(lines[..i], QuoteOf)
    {
      var quote := QuoteStep(lines[i]);
      FilterMapSnoc(lines, lines[..i + 1], i, QuoteOf);
      if quote.Some? {
        quotes := quotes + [quote.value];
      }
    }
    assert lines[..|lines|] == lines;
    quotes := SliceTo(quotes, maxQuotes);
  }

  /** The fallback branch of `extract_topics`, line by line. */
  method TopicsFromLines(response: string) returns (topics: seq<string>)
    ensures topics == FallbackTopics(response)
  {
    var lines := Lines(response);
    topics := [];
    for i := 0 to |lines|
      invariant topics == FilterMap(lines[..i], TopicOf)
    {
      var topic := TopicStep(lines[i]);
      FilterMapSnoc(lines, lines[..i + 1], i, TopicOf);
      if topic.Some? {
        topics := topics + [topic.value];
      }
    }
    assert lines[..|lines|] == lines;
    topics := SliceTo(topics, 10);
  }

  /** `extract_quotes`: the reply, decoded as JSON when it parses,
      otherwise read line by line. */
  method ExtractQuotes(reply: Result<ChatResponse, string>, parse: string -> Option<Json>,
                       maxQuotes: int) returns (quotes: seq<string>)
    ensures var response := GenerateResponse(reply);
      && (parse(response) == Some(NotAList) ==> quotes == [])
      && (parse(response).Some? && parse(response).value.JsonList? ==> quotes == parse(response).value.items)
      && (parse(response).None? ==> quotes == FallbackQuotes(response, maxQuotes))
  {
    var response := GenerateResponse(reply);
    var decoded := parse(response);
    if decoded.Some? {
      quotes := if decoded.value.JsonList? then decoded.value.items else [];
    } else {
      quotes := QuotesFromLines(response, maxQuotes);
    }
  }

  /** `extract_topics`: as `extract_quotes`, with the topic rules and at
      most ten items from the fallback. */
  method ExtractTopics(reply: Result<ChatResponse, string>, parse: string -> Option<Json>)
    returns (topics: seq<string>)
    ensures var response := GenerateResponse(reply);
      && (parse(response) == Some(NotAList) ==> topics == [])
      && (parse(response).Some? && parse(response).value.JsonList? ==> topics == parse(response).value.items)
      && (parse(response).None? ==> topics == FallbackTopics(response))
  {
    var response := GenerateResponse(reply);
    var decoded := parse(response);
    if decoded.Some? {
      topics := if decoded.value.JsonList? then decoded.value.items else [];
    } else {
      topics := TopicsFromLines(response);
    }
  }
}
