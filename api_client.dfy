/** The offline part of the dictionary clients (`api_client.py`): how a
    Wiktionary definition response is walked into definitions, examples,
    etymology and synonyms, and how `get_word_info` merges that with a
    machine translation. The HTTP requests are outside the model: the
    decoded Wiktionary body and LibreTranslate's answer are parameters. */
module ApiClient {
  import opened Common
  import opened Json

  /** What `_parse_wiktionary_response` returns. */
  datatype WikiInfo = WikiInfo(word: string, definitions: seq<Value>, examples: seq<Value>,
                               etymology: Value, synonyms: seq<Value>)

  function EmptyInfo(word: string): WikiInfo {
    WikiInfo(word, [], [], Null, [])
  }

  /** The walk's state: what has been gathered, and whether an exception
      has stopped it (`ok` false). When it has, the partial result is what
      the function returns. */
  datatype Walk = Walk(info: WikiInfo, ok: bool)

  /** `b` is `a` with more gathered: the same word, every list extended at
      its end, and a truthy etymology kept. */
  predicate Extends(a: WikiInfo, b: WikiInfo) {
    && a.word == b.word
    && a.definitions <= b.definitions
    && a.examples <= b.examples
    && a.synonyms <= b.synonyms
    && (Truthy(a.etymology) ==> b.etymology == a.etymology)
  }

  /** `x[key]` guarded by `if key in x`: `None` when either raises
      `TypeError`, `Some(None)` when the key is not in `x`. */
  function Guarded(x: Value, key: string): (r: Option<Option<Value>>)
    ensures x.Object? ==> r == Some(Lookup(x.members, key))
    ensures r.None? <==> PyIn(x, key).None? || (PyIn(x, key) == Some(true) && !x.Object?)
  {
    match PyIn(x, key)
    case None => None
    case Some(has) =>
      if !has then Some(None)
      else match PyIndex(x, key)
        case None => None
        case Some(v) => Some(Some(v))
  }

  /** A `for` loop over `xs` whose body is `step`, stopped by the first
      exception. */
  function Fold(step: (WikiInfo, Value) -> Walk, w: Walk, xs: seq<Value>): Walk
    decreases |xs|
  {
    if !w.ok || xs == [] then w else Fold(step, step(w.info, xs[0]), xs[1..])
  }

  /** The innermost loop's body: an example's "text". */
  function ExampleStep(info: WikiInfo, example: Value): (r: Walk)
    ensures Extends(info, r.info)
  {
    match Guarded(example, "text")
    case None => Walk(info, false)
    case Some(None) => Walk(info, true)
    case Some(Some(t)) => Walk(info.(examples := info.examples + [t]), true)
  }

  /** What a synonym contributes: a str as it is, or a dict's "text". */
  function SynonymText(synonym: Value): (r: Option<Value>)
    ensures synonym.Str? ==> r == Some(synonym)
    ensures r.Some? ==> synonym.Str? || synonym.Object?
  {
    if synonym.Str? then Some(synonym)
    else if synonym.Object? then Lookup(synonym.members, "text")
    else None
  }

  function SynonymStep(info: WikiInfo, synonym: Value): (r: Walk)
    ensures r.ok && Extends(info, r.info)
  {
    match SynonymText(synonym)
    case None => Walk(info, true)
    case Some(t) => Walk(info.(synonyms := info.synonyms + [t]), true)
  }

  /** One definition: its "definition", then the loop over its "examples". */
  function DefinitionStep(info: WikiInfo, definition: Value): (r: Walk)
    ensures Extends(info, r.info)
  {
    match Guarded(definition, "definition")
    case None => Walk(info, false)
    case Some(found) =>
      var info1 := if found.Some? then info.(definitions := info.definitions + [found.value]) else info;
      match Guarded(definition, "examples")
      case None => Walk(info1, false)
      case Some(None) => Walk(info1, true)
      case Some(Some(v)) =>
        match PyIter(v)
        case None => Walk(info1, false)
        case Some(xs) =>
          FoldExtends(ExampleStep, Walk(info1, true), xs);
          Fold(ExampleStep, Walk(info1, true), xs)
  }

  /** The etymology rule: an entry's "etymology" is taken only while no
      truthy one has been recorded. */
  function WithEtymology(info: WikiInfo, entry: seq<(string, Value)>): (r: WikiInfo)
    ensures Extends(info, r)
  {
    match Lookup(entry, "etymology")
    case Some(y) => if !Truthy(info.etymology) then info.(etymology := y) else info
    case None => info
  }

  /** An entry's loop over its "definitions", when it has them. */
  function EntryDefinitions(info: WikiInfo, entry: seq<(string, Value)>): (r: Walk)
    ensures Extends(info, r.info)
  {
    match Lookup(entry, "definitions")
    case None => Walk(info, true)
    case Some(v) =>
      match PyIter(v)
      case None => Walk(info, false)
      case Some(ds) =>
        FoldExtends(DefinitionStep, Walk(info, true), ds);
        Fold(DefinitionStep, Walk(info, true), ds)
  }

  /** An entry's loop over its "synonyms", when it has them. */
  function EntrySynonyms(info: WikiInfo, entry: seq<(string, Value)>): (r: Walk)
    ensures Extends(info, r.info)
  {
    match Lookup(entry, "synonyms")
    case None => Walk(info, true)
    case Some(v) =>
      match PyIter(v)
      case None => Walk(info, false)
      case Some(ss) =>
        FoldExtends(SynonymStep, Walk(info, true), ss);
        Fold(SynonymStep, Walk(info, true), ss)
  }

  /** One entry of a language: nothing unless it is a dict; otherwise its
      definitions, its etymology, then its synonyms. */
  function EntryStep(info: WikiInfo, entry: Value): (r: Walk)
    ensures Extends(info, r.info)
  {
    if !entry.Object? then Walk(info, true)
    else
      var w1 := EntryDefinitions(info, entry.members);
      if !w1.ok then w1
      else EntrySynonyms(WithEtymology(w1.info, entry.members), entry.members)
  }

  /** One language: its entries when it is a list, nothing otherwise. */
  function LanguageStep(info: WikiInfo, language: Value): (r: Walk)
    ensures Extends(info, r.info)
  {
    if language.Array? then
      FoldExtends(EntryStep, Walk(info, true), language.items);
      Fold(EntryStep, Walk(info, true), language.items)
    else Walk(info, true)
  }

  /** `_parse_wiktionary_response(data, word)`. A body that is not a dict
      makes `data.values()` raise, which leaves the empty result. */
  function ParseResponse(data: Value, word: string): (r: WikiInfo)
    ensures Extends(EmptyInfo(word), r)
  {
    if data.Object? then
      FoldExtends(LanguageStep, Walk(EmptyInfo(word), true), Values(data.members));
      Fold(LanguageStep, Walk(EmptyInfo(word), true), Values(data.members)).info
    else EmptyInfo(word)
  }

  // ---------------------------------------------------------------
  // Properties of the walk
  // ---------------------------------------------------------------

  lemma ExtendsTransitive(a: WikiInfo, b: WikiInfo, c: WikiInfo)
    requires Extends(a, b) && Extends(b, c)
    ensures Extends(a, c)
  {
  }

  /** A loop whose body only adds keeps adding: nothing gathered is lost,
      even when an exception stops the loop. */
  lemma {:induction false} FoldExtends(step: (WikiInfo, Value) -> Walk, w: Walk, xs: seq<Value>)
    requires forall i, x :: Extends(i, step(i, x).info)
    ensures Extends(w.info, Fold(step, w, xs).info)
    decreases |xs|
  {
    if w.ok && xs != [] {
      var next := step(w.info, xs[0]);
      FoldExtends(step, next, xs[1..]);
      ExtendsTransitive(w.info, next.info, Fold(step, w, xs).info);
    }
  }

  /** Looping over `xs + ys` is looping over `xs`, then over `ys`. */
  lemma {:induction false} FoldAppend(step: (WikiInfo, Value) -> Walk, w: Walk, xs: seq<Value>, ys: seq<Value>)
    ensures Fold(step, w, xs + ys) == Fold(step, Fold(step, w, xs), ys)
    decreases |xs|
  {
    if w.ok && xs != [] {
      assert (xs + ys)[0] == xs[0];
      assert (xs + ys)[1..] == xs[1..] + ys;
      FoldAppend(step, step(w.info, xs[0]), xs[1..], ys);
    } else if xs == [] {
      assert xs + ys == ys;
    }
  }

  lemma FoldNext(step: (WikiInfo, Value) -> Walk, w: Walk, xs: seq<Value>, i: int)
    requires 0 <= i < |xs|
    ensures Fold(step, w, xs[i..]) == if w.ok then Fold(step, step(w.info, xs[i]), xs[i + 1..]) else w
  {
    assert xs[i..][0] == xs[i];
    assert xs[i..][1..] == xs[i + 1..];
  }

  lemma FoldStopped(step: (WikiInfo, Value) -> Walk, w: Walk, xs: seq<Value>)
    requires !w.ok
    ensures Fold(step, w, xs) == w
  {
  }

  /** An exception in a later language keeps everything the earlier
      languages gave. */
  lemma EarlierLanguagesKept(m1: seq<(string, Value)>, m2: seq<(string, Value)>, word: string)
    ensures Extends(ParseResponse(Object(m1), word), ParseResponse(Object(m1 + m2), word))
  {
    var start := Walk(EmptyInfo(word), true);
    assert Values(m1 + m2) == Values(m1) + Values(m2);
    FoldAppend(LanguageStep, start, Values(m1), Values(m2));
    FoldExtends(LanguageStep, Fold(LanguageStep, start, Values(m1)), Values(m2));
  }

  /** Values that are not lists are skipped as languages, and values that
      are not dicts are skipped as entries. */
  lemma SkippedShapes(info: WikiInfo, v: Value)
    ensures !v.Array? ==> LanguageStep(info, v) == Walk(info, true)
    ensures !v.Object? ==> EntryStep(info, v) == Walk(info, true)
  {
  }

  /** Once a truthy etymology is recorded, no later language replaces it. */
  lemma EtymologyKept(w: Walk, languages: seq<Value>)
    requires Truthy(w.info.etymology)
    ensures Fold(LanguageStep, w, languages).info.etymology == w.info.etymology
  {
    FoldExtends(LanguageStep, w, languages);
  }

  // ---------------------------------------------------------------
  // What a response yields when nothing raises
  // ---------------------------------------------------------------

  /** The three lists the walk gathers. */
  datatype Gathered = Gathered(definitions: seq<Value>, examples: seq<Value>, synonyms: seq<Value>) {
    function Plus(other: Gathered): Gathered {
      Gathered(definitions + other.definitions, examples + other.examples, synonyms + other.synonyms)
    }
  }

  const NOTHING: Gathered := Gathered([], [], [])

  function Lists(info: WikiInfo): Gathered {
    Gathered(info.definitions, info.examples, info.synonyms)
  }

  /** What each of `xs` gives, in order. */
  function Total(give: Value -> Gathered, xs: seq<Value>): Gathered
    decreases |xs|
  {
    if xs == [] then NOTHING else give(xs[0]).Plus(Total(give, xs[1..]))
  }

  /** Every element of `xs` is `clean`. */
  predicate All(clean: Value -> bool, xs: seq<Value>) {
    forall k :: 0 <= k < |xs| ==> clean(xs[k])
  }

  /** A loop none of whose steps raises gathers, in order, what each
      element gives. */
  lemma {:induction false} FoldGathers(step: (WikiInfo, Value) -> Walk, w: Walk, xs: seq<Value>,
                                       give: Value -> Gathered, clean: Value -> bool)
    requires w.ok && All(clean, xs)
    requires forall i, x :: clean(x) ==> step(i, x).ok && Lists(step(i, x).info) == Lists(i).Plus(give(x))
    ensures Fold(step, w, xs).ok
    ensures Lists(Fold(step, w, xs).info) == Lists(w.info).Plus(Total(give, xs))
    decreases |xs|
  {
    if xs != [] {
      var next := step(w.info, xs[0]);
      assert clean(xs[0]);
      assert All(clean, xs[1..]) by {
        forall k | 0 <= k < |xs[1..]| ensures clean(xs[1..][k]) {
          assert xs[1..][k] == xs[k + 1];
        }
      }
      FoldGathers(step, next, xs[1..], give, clean);
    }
  }

  /** An example raises nothing when "text" can be looked up and read. */
  predicate CleanExample(example: Value) {
    Guarded(example, "text").Some?
  }

  function ExampleGives(example: Value): Gathered {
    match Guarded(example, "text")
    case Some(Some(t)) => Gathered([], [t], [])
    case _ => NOTHING
  }

  function SynonymGives(synonym: Value): Gathered {
    match SynonymText(synonym)
    case Some(t) => Gathered([], [], [t])
    case None => NOTHING
  }

  predicate Always(v: Value) {
    true
  }

  predicate CleanDefinition(definition: Value) {
    && Guarded(definition, "definition").Some?
    && match Guarded(definition, "examples")
       case None => false
       case Some(None) => true
       case Some(Some(v)) => PyIter(v).Some? && All(CleanExample, PyIter(v).value)
  }

  function DefinitionGives(definition: Value): Gathered {
    var own := match Guarded(definition, "definition")
      case Some(Some(d)) => Gathered([d], [], [])
      case _ => NOTHING;
    match Guarded(definition, "examples")
    case Some(Some(v)) =>
      if PyIter(v).Some? then own.Plus(Total(ExampleGives, PyIter(v).value)) else own
    case _ => own
  }

  predicate CleanEntry(entry: Value) {
    entry.Object? ==>
      && (match Lookup(entry.members, "definitions")
          case None => true
          case Some(v) => PyIter(v).Some? && All(CleanDefinition, PyIter(v).value))
      && (match Lookup(entry.members, "synonyms")
          case None => true
          case Some(v) => PyIter(v).Some?)
  }

  function EntryGives(entry: Value): Gathered {
    if !entry.Object? then NOTHING
    else
      var defs := match Lookup(entry.members, "definitions")
        case Some(v) => if PyIter(v).Some? then Total(DefinitionGives, PyIter(v).value) else NOTHING
        case None => NOTHING;
      var syns := match Lookup(entry.members, "synonyms")
        case Some(v) => if PyIter(v).Some? then Total(SynonymGives, PyIter(v).value) else NOTHING
        case None => NOTHING;
      defs.Plus(syns)
  }

  predicate CleanLanguage(language: Value) {
    language.Array? ==> All(CleanEntry, language.items)
  }

  function LanguageGives(language: Value): Gathered {
    if language.Array? then Total(EntryGives, language.items) else NOTHING
  }

  /** A response none of whose parts makes Python raise. */
  predicate CleanResponse(data: Value) {
    data.Object? && All(CleanLanguage, Values(data.members))
  }

  /** Everything a response holds, in document order: languages in order,
      entries in order within a language, and within an entry its
      definitions, each followed by its examples, then its synonyms. */
  function ResponseGives(data: Value): Gathered {
    if data.Object? then Total(LanguageGives, Values(data.members)) else NOTHING
  }

  lemma PlusNothing(g: Gathered)
    ensures g.Plus(NOTHING) == g && NOTHING.Plus(g) == g
  {
  }

  lemma PlusAssociative(a: Gathered, b: Gathered, c: Gathered)
    ensures a.Plus(b).Plus(c) == a.Plus(b.Plus(c))
  {
  }

  lemma ExampleGathers(info: WikiInfo, example: Value)
    requires CleanExample(example)
    ensures ExampleStep(info, example).ok
    ensures Lists(ExampleStep(info, example).info) == Lists(info).Plus(ExampleGives(example))
  {
  }

  lemma SynonymGathers(info: WikiInfo, synonym: Value)
    ensures SynonymStep(info, synonym).ok
    ensures Lists(SynonymStep(info, synonym).info) == Lists(info).Plus(SynonymGives(synonym))
  {
  }

  lemma DefinitionGathers(info: WikiInfo, definition: Value)
    requires CleanDefinition(definition)
    ensures DefinitionStep(info, definition).ok
    ensures Lists(DefinitionStep(info, definition).info) == Lists(info).Plus(DefinitionGives(definition))
  {
    var found := Guarded(definition, "definition").value;
    var info1 := if found.Some? then info.(definitions := info.definitions + [found.value]) else info;
    var own := if found.Some? then Gathered([found.value], [], []) else NOTHING;
    assert Lists(info1) == Lists(info).Plus(own);
    match Guarded(definition, "examples")
    case Some(None) =>
      PlusNothing(Lists(info));
    case Some(Some(v)) =>
      var xs := PyIter(v).value;
      forall i, x | CleanExample(x)
        ensures ExampleStep(i, x).ok && Lists(ExampleStep(i, x).info) == Lists(i).Plus(ExampleGives(x))
      {
        ExampleGathers(i, x);
      }
      FoldGathers(ExampleStep, Walk(info1, true), xs, ExampleGives, CleanExample);
      PlusAssociative(Lists(info), own, Total(ExampleGives, xs));
  }

  lemma EntryGathers(info: WikiInfo, entry: Value)
    requires CleanEntry(entry)
    ensures EntryStep(info, entry).ok
    ensures Lists(EntryStep(info, entry).info) == Lists(info).Plus(EntryGives(entry))
  {
    if entry.Object? {
      var m := entry.members;
      var defs := NOTHING;
      match Lookup(m, "definitions") {
        case None =>
          PlusNothing(Lists(info));
        case Some(v) =>
          var ds := PyIter(v).value;
          forall i, x | CleanDefinition(x)
            ensures DefinitionStep(i, x).ok && Lists(DefinitionStep(i, x).info) == Lists(i).Plus(DefinitionGives(x))
          {
            DefinitionGathers(i, x);
          }
          FoldGathers(DefinitionStep, Walk(info, true), ds, DefinitionGives, CleanDefinition);
          defs := Total(DefinitionGives, ds);
      }
      var w1 := EntryDefinitions(info, m);
      assert w1.ok && Lists(w1.info) == Lists(info).Plus(defs);
      var info2 := WithEtymology(w1.info, m);
      assert Lists(info2) == Lists(w1.info);
      var syns := NOTHING;
      match Lookup(m, "synonyms") {
        case None =>
          PlusNothing(Lists(info2));
        case Some(v) =>
          var ss := PyIter(v).value;
          assert All(Always, ss);
          forall i, x | Always(x)
            ensures SynonymStep(i, x).ok && Lists(SynonymStep(i, x).info) == Lists(i).Plus(SynonymGives(x))
          {
            SynonymGathers(i, x);
          }
          FoldGathers(SynonymStep, Walk(info2, true), ss, SynonymGives, Always);
          syns := Total(SynonymGives, ss);
      }
      assert Lists(EntrySynonyms(info2, m).info) == Lists(info2).Plus(syns);
      assert EntryGives(entry) == defs.Plus(syns);
      PlusAssociative(Lists(info), defs, syns);
    } else {
      PlusNothing(Lists(info));
    }
  }

  lemma LanguageGathers(info: WikiInfo, language: Value)
    requires CleanLanguage(language)
    ensures LanguageStep(info, language).ok
    ensures Lists(LanguageStep(info, language).info) == Lists(info).Plus(LanguageGives(language))
  {
    if language.Array? {
      forall i, x | CleanEntry(x)
        ensures EntryStep(i, x).ok && Lists(EntryStep(i, x).info) == Lists(i).Plus(EntryGives(x))
      {
        EntryGathers(i, x);
      }
      FoldGathers(EntryStep, Walk(info, true), language.items, EntryGives, CleanEntry);
    } else {
      PlusNothing(Lists(info));
    }
  }

  /** On a response where nothing raises, the walk gathers exactly the
      document-order lists. */
  lemma ParseGathersInOrder(data: Value, word: string)
    requires CleanResponse(data)
    ensures ParseResponse(data, word).word == word
    ensures Lists(ParseResponse(data, word)) == ResponseGives(data)
  {
    forall i, x | CleanLanguage(x)
      ensures LanguageStep(i, x).ok && Lists(LanguageStep(i, x).info) == Lists(i).Plus(LanguageGives(x))
    {
      LanguageGathers(i, x);
    }
    FoldGathers(LanguageStep, Walk(EmptyInfo(word), true), Values(data.members), LanguageGives, CleanLanguage);
    PlusNothing(ResponseGives(data));
  }

  // ---------------------------------------------------------------
  // The walk as the source runs it: nested loops, left at the first
  // exception
  // ---------------------------------------------------------------

  lemma FoldDone(step: (WikiInfo, Value) -> Walk, w: Walk, xs: seq<Value>, i: int)
    requires 0 <= i <= |xs| && !(i < |xs| && w.ok)
    ensures Fold(step, w, xs[i..]) == w
  {
    if w.ok {
      assert xs[i..] == [];
    }
  }

  /** The loop over a definition's examples, after its "definition". */
  method WalkDefinition(info: WikiInfo, definition: Value) returns (w: Walk)
    ensures w == DefinitionStep(info, definition)
  {
    var found := Guarded(definition, "definition");
    if found.None? {
      return Walk(info, false);
    }
    var info1 := info;
    if found.value.Some? {
      info1 := info.(definitions := info.definitions + [found.value.value]);
    }
    var examples := Guarded(definition, "examples");
    if examples.None? {
      return Walk(info1, false);
    }
    if examples.value.None? {
      return Walk(info1, true);
    }
    var items := PyIter(examples.value.value);
    if items.None? {
      return Walk(info1, false);
    }
    var xs := items.value;
    w := Walk(info1, true);
    var i := 0;
    while i < |xs| && w.ok
      invariant 0 <= i <= |xs|
      invariant Fold(ExampleStep, Walk(info1, true), xs) == Fold(ExampleStep, w, xs[i..])
    {
      FoldNext(ExampleStep, w, xs, i);
      var text := Guarded(xs[i], "text");
      if text.None? {
        w := Walk(w.info, false);
      } else if text.value.Some? {
        w := Walk(w.info.(examples := w.info.examples + [text.value.value]), true);
      }
      i := i + 1;
    }
    FoldDone(ExampleStep, w, xs, i);
  }

  /** One entry: its definitions, its etymology, then its synonyms. */
  method WalkEntry(info: WikiInfo, entry: Value) returns (w: Walk)
    ensures w == EntryStep(info, entry)
  {
    if !entry.Object? {
      return Walk(info, true);
    }
    var m := entry.members;
    w := Walk(info, true);
    var definitions := Lookup(m, "definitions");
    if definitions.Some? {
      var items := PyIter(definitions.value);
      if items.None? {
        return Walk(info, false);
      }
      var ds := items.value;
      var i := 0;
      while i < |ds| && w.ok
        invariant 0 <= i <= |ds|
        invariant Fold(DefinitionStep, Walk(info, true), ds) == Fold(DefinitionStep, w, ds[i..])
      {
        FoldNext(DefinitionStep, w, ds, i);
        w := WalkDefinition(w.info, ds[i]);
        i := i + 1;
      }
      FoldDone(DefinitionStep, w, ds, i);
      if !w.ok {
        return;
      }
    }
    assert w == EntryDefinitions(info, m);
    var etymology := Lookup(m, "etymology");
    if etymology.Some? && !Truthy(w.info.etymology) {
      w := Walk(w.info.(etymology := etymology.value), true);
    }
    assert w.info == WithEtymology(EntryDefinitions(info, m).info, m);
    ghost var start := w;
    var synonyms := Lookup(m, "synonyms");
    if synonyms.Some? {
      var items := PyIter(synonyms.value);
      if items.None? {
        return Walk(w.info, false);
      }
      var ss := items.value;
      var i := 0;
      while i < |ss|
        invariant 0 <= i <= |ss| && w.ok
        invariant Fold(SynonymStep, start, ss) == Fold(SynonymStep, w, ss[i..])
      {
        FoldNext(SynonymStep, w, ss, i);
        var text := SynonymText(ss[i]);
        if text.Some? {
          w := Walk(w.info.(synonyms := w.info.synonyms + [text.value]), true);
        }
        i := i + 1;
      }
      FoldDone(SynonymStep, w, ss, i);
    }
  }

  /** `_parse_wiktionary_response`: the loops over languages and entries. */
  method ParseWiktionaryResponse(data: Value, word: string) returns (result: WikiInfo)
    ensures result == ParseResponse(data, word)
  {
    result := EmptyInfo(word);
    if !data.Object? {
      return;
    }
    var languages := Values(data.members);
    var w := Walk(result, true);
    var i := 0;
    while i < |languages| && w.ok
      invariant 0 <= i <= |languages|
      invariant Fold(LanguageStep, Walk(EmptyInfo(word), true), languages) == Fold(LanguageStep, w, languages[i..])
    {
      FoldNext(LanguageStep, w, languages, i);
      var language := languages[i];
      if language.Array? {
        var entries := language.items;
        var inner := w;
        var j := 0;
        while j < |entries| && inner.ok
          invariant 0 <= j <= |entries|
          invariant Fold(EntryStep, Walk(w.info, true), entries) == Fold(EntryStep, inner, entries[j..])
        {
          FoldNext(EntryStep, inner, entries, j);
          inner := WalkEntry(inner.info, entries[j]);
          j := j + 1;
        }
        FoldDone(EntryStep, inner, entries, j);
        w := inner;
      }
      i := i + 1;
    }
    FoldDone(LanguageStep, w, languages, i);
    result := w.info;
  }

  // ---------------------------------------------------------------
  // get_word_info: Wiktionary first, then machine translation
  // ---------------------------------------------------------------

  /** What `VocabularyAPIClient.get_word_info` returns when it returns. */
  datatype WordInfo = WordInfo(word: string, translation: Value, example: Value,
                               synonyms: seq<Value>, etymology: Value)

  /** What Wiktionary yields for `word`: the walked response when the
      request answered with a body (`Some`), nothing otherwise. */
  function WikiLookup(word: string, response: Option<Value>): (r: Option<WikiInfo>)
    ensures r.Some? <==> response.Some?
  {
    if response.Some? then Some(ParseResponse(response.value, word)) else None
  }

  /** The first element, when there is one, as `xs[0]` behind `if xs:`. */
  function FirstOrNull(xs: seq<Value>): (r: Value)
    ensures xs == [] ==> r == Null
  {
    if xs != [] then xs[0] else Null
  }

  /** The translation Wiktionary offers: its first definition. */
  function WikiTranslation(info: Option<WikiInfo>): Value {
    if info.Some? then FirstOrNull(info.value.definitions) else Null
  }

  /** `get_word_info(word, source, target)`. `response` is the decoded
      Wiktionary body (`None` for a failed request) and `translated` what
      LibreTranslate would answer (`Null` for none). */
  function GetWordInfo(word: string, sourceLang: string, targetLang: string,
                       response: Option<Value>, translated: Value): (r: Option<WordInfo>)
    ensures r.Some? ==> r.value.word == word && Truthy(r.value.translation)
  {
    var info := WikiLookup(word, response);
    var fromWiki := WikiTranslation(info);
    var example := if info.Some? then FirstOrNull(info.value.examples) else Null;
    var synonyms := if info.Some? then info.value.synonyms else [];
    var etymology := if info.Some? && Truthy(info.value.etymology) then info.value.etymology else Null;
    var translation := if !Truthy(fromWiki) && sourceLang != targetLang && Truthy(translated) then translated else fromWiki;
    if Truthy(translation) then Some(WordInfo(word, translation, example, synonyms, etymology)) else None
  }

  /** There is a result exactly when some translation was obtained: a
      truthy first definition, or else, between two different languages, a
      truthy machine translation. The first definition wins. */
  lemma TranslationRule(word: string, sourceLang: string, targetLang: string, response: Option<Value>, translated: Value)
    ensures var fromWiki := WikiTranslation(WikiLookup(word, response));
      (GetWordInfo(word, sourceLang, targetLang, response, translated).Some? <==>
        Truthy(fromWiki) || (sourceLang != targetLang && Truthy(translated)))
    ensures var fromWiki := WikiTranslation(WikiLookup(word, response));
      var r := GetWordInfo(word, sourceLang, targetLang, response, translated);
      r.Some? ==> r.value.translation == if Truthy(fromWiki) then fromWiki else translated
  {
  }

  /** LibreTranslate is consulted only when Wiktionary gave no truthy
      translation and the languages differ: otherwise its answer cannot
      change the result. */
  lemma TranslatorOnlyWhenNeeded(word: string, sourceLang: string, targetLang: string,
                                 response: Option<Value>, translated: Value, other: Value)
    requires Truthy(WikiTranslation(WikiLookup(word, response))) || sourceLang == targetLang
    ensures GetWordInfo(word, sourceLang, targetLang, response, translated)
         == GetWordInfo(word, sourceLang, targetLang, response, other)
  {
  }

  /** The rest of the result comes from Wiktionary: the first example, the
      synonyms, and the etymology when truthy. */
  lemma WikiFieldsCopied(word: string, sourceLang: string, targetLang: string, response: Option<Value>, translated: Value)
    requires response.Some?
    requires GetWordInfo(word, sourceLang, targetLang, response, translated).Some?
    ensures var info := ParseResponse(response.value, word);
      var r := GetWordInfo(word, sourceLang, targetLang, response, translated).value;
      && r.example == FirstOrNull(info.examples)
      && r.synonyms == info.synonyms
      && (Truthy(info.etymology) ==> r.etymology == info.etymology)
      && (!Truthy(info.etymology) ==> r.etymology == Null)
  {
  }

  /** On a response where nothing raises, the translation offered is the
      first definition in document order. */
  lemma CleanResponseTranslation(word: string, data: Value)
    requires CleanResponse(data)
    ensures WikiTranslation(WikiLookup(word, Some(data))) == FirstOrNull(ResponseGives(data).definitions)
  {
    ParseGathersInOrder(data, word);
  }

  /** Without a Wiktionary answer and between equal languages there is
      never a result. */
  lemma NoSourceNoResult(word: string, lang: string, translated: Value)
    ensures GetWordInfo(word, lang, lang, None, translated).None?
  {
  }
}
