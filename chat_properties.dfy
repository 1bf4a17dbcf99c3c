/**
 * What the `/chat` handler of app.py guarantees, stated over the model in
 * module ChatHandler: the order of its checks, which external calls each
 * path makes, the retrieval query, and the exact message list it sends.
 */
module ChatProperties {
  import opened Wrappers
  import opened Text
  import opened Prompt
  import opened ChatHandler

  /** How many completion calls a trace holds. */
  function Completions(calls: seq<Call>): nat
  {
    if calls == [] then 0
    else Completions(calls[..|calls| - 1]) + (if calls[|calls| - 1].ChatCompletion? then 1 else 0)
  }

  /** Without a completion client every request gets the same 500, before any input is looked at and with no external call. */
  lemma ClientCheckedFirst(b: Backend, req: Request)
    requires b.client.None?
    ensures Handle(b, req) == Exchange(Response(500, ErrorField(ClientNotInitialized)), [])
  {
  }

  /** A 400 is returned exactly for a request with neither message nor file, and then nothing is called. */
  lemma EmptyRequestRejected(b: Backend, req: Request)
    ensures Handle(b, req).response.status == 400 <==>
      b.client.Some? && MessageField(req.form) == "" && req.file.None?
    ensures Handle(b, req).response.status == 400 ==>
      Handle(b, req) == Exchange(Response(400, ErrorField(NoInput)), [])
  {
  }

  /**
   * The informational 200 is returned exactly for an upload whose name does
   * not end in `.txt` in any case, whatever the message; neither retrieval
   * nor completion is called.
   */
  lemma UnsupportedFileReply(b: Backend, req: Request)
    ensures Decide(b, req).outcome.Info200? <==>
      b.client.Some? && req.file.Some? && !HasTxtSuffix(req.file.value.filename)
    ensures Decide(b, req).outcome.Info200? ==>
      Handle(b, req) == Exchange(Response(200, ResponseField(UnsupportedFile)), [])
  {
  }

  /**
   * A request without a file searches the index (when there is one) with
   * exactly the message, k = 3, and sends the question template filled with
   * the message and the law context: the placeholder when there are no
   * passages or one empty passage, the passages joined by blank lines
   * otherwise.
   */
  lemma QuestionTurn(b: Backend, req: Request)
    requires b.client.Some? && req.file.None? && MessageField(req.form) != ""
    ensures Decide(b, req).calls ==
      if b.index.Some? then [SimilaritySearch(MessageField(req.form), TopK)] else []
    ensures b.index.None? ==>
      Decide(b, req).outcome == Complete(Messages(QuestionPrompt(MessageField(req.form), NoLawFound)))
    ensures b.index.Some? ==>
      match b.index.value(MessageField(req.form), TopK)
      case Failure(e) => Decide(b, req).outcome == Err500(e)
      case Success(passages) =>
        Decide(b, req).outcome == Complete(Messages(QuestionPrompt(MessageField(req.form),
          if |passages| == 0 || (|passages| == 1 && passages[0] == "") then NoLawFound
          else Join(passages, PassageSeparator))))
  {
    if b.index.Some? {
      var r := b.index.value(MessageField(req.form), TopK);
      if r.Success? {
        LawContextCases(r.value);
      }
    }
  }

  /**
   * A `.txt` upload that decodes to `content` searches the index (when there
   * is one) with the first min(1000, |content|) characters of `content`,
   * k = 3, and its user turn opens with the message and a blank line, names
   * the file, and holds the whole content.
   */
  lemma DocumentTurn(b: Backend, req: Request, content: string)
    requires b.client.Some? && req.file.Some? && HasTxtSuffix(req.file.value.filename)
    requires b.decode(req.file.value.bytes) == Success(content)
    ensures Decide(b, req).calls ==
      if b.index.Some? then [SimilaritySearch(content[..Min(QueryLimit, |content|)], TopK)] else []
    ensures Decide(b, req).outcome.Complete? <==> Retrieve(b.index, DocumentQuery(content)).context.Success?
    ensures Decide(b, req).outcome.Complete? ==>
      var user := Decide(b, req).outcome.messages[1].content;
      var name := req.file.value.filename;
      StartsWith(user, MessageField(req.form) + "\n\n" + "Analyze the document '" + name + "':\n") &&
      ContentStart(MessageField(req.form), name) + |content| <= |user| &&
      user[ContentStart(MessageField(req.form), name)..ContentStart(MessageField(req.form), name) + |content|] == content
    ensures b.index.None? ==>
      Decide(b, req).outcome ==
        Complete(Messages(DocumentPrompt(MessageField(req.form), req.file.value.filename, content, NoLawFound)))
    ensures b.index.Some? ==>
      match b.index.value(DocumentQuery(content), TopK)
      case Failure(e) => Decide(b, req).outcome == Err500(e)
      case Success(passages) =>
        Decide(b, req).outcome == Complete(Messages(DocumentPrompt(MessageField(req.form), req.file.value.filename, content,
          if |passages| == 0 || (|passages| == 1 && passages[0] == "") then NoLawFound
          else Join(passages, PassageSeparator))))
  {
    var r := Retrieve(b.index, DocumentQuery(content));
    assert DocumentQuery(content) == content[..Min(QueryLimit, |content|)];
    if r.context.Success? {
      DocumentPromptLayout(MessageField(req.form), req.file.value.filename, content, r.context.value);
    }
    if b.index.Some? {
      var found := b.index.value(DocumentQuery(content), TopK);
      if found.Success? {
        LawContextCases(found.value);
      }
    }
  }

  /**
   * When a file is present the file branch is taken whatever the message
   * says: two requests that differ only in their message make the same
   * external calls and reach the same kind of outcome.
   */
  lemma FileBranchIgnoresMessage(b: Backend, form1: Option<string>, form2: Option<string>, upload: Upload)
    ensures Decide(b, Request(form1, Some(upload))).calls == Decide(b, Request(form2, Some(upload))).calls
    ensures Decide(b, Request(form1, Some(upload))).outcome.Complete? <==>
      Decide(b, Request(form2, Some(upload))).outcome.Complete?
    ensures Decide(b, Request(form1, Some(upload))).outcome.Err500? <==>
      Decide(b, Request(form2, Some(upload))).outcome.Err500?
  {
  }

  /**
   * Every retrieval uses k = 3, only happens when there is an index, and
   * queries with the message (no file) or a prefix of at most 1000
   * characters of the decoded upload.
   */
  lemma RetrievalQuery(b: Backend, req: Request, i: nat)
    requires i < |Decide(b, req).calls|
    ensures b.index.Some? && b.client.Some?
    ensures Decide(b, req).calls[i] == SimilaritySearch(Decide(b, req).calls[i].query, TopK)
    ensures req.file.None? ==> Decide(b, req).calls[i].query == MessageField(req.form)
    ensures req.file.Some? ==>
      b.decode(req.file.value.bytes).Success? &&
      |Decide(b, req).calls[i].query| == Min(QueryLimit, |b.decode(req.file.value.bytes).value|) &&
      StartsWith(b.decode(req.file.value.bytes).value, Decide(b, req).calls[i].query)
  {
  }

  /**
   * The completion service is called at most once, last, with the message
   * list and model the handler built, and exactly when validation and
   * retrieval succeeded; its text or its error becomes the reply.
   */
  lemma CompletionCalledOnce(b: Backend, req: Request)
    ensures Completions(Handle(b, req).calls) == if Decide(b, req).outcome.Complete? then 1 else 0
    ensures Decide(b, req).outcome.Complete? ==>
      Handle(b, req).calls == Decide(b, req).calls + [ChatCompletion(Decide(b, req).outcome.messages, Model)]
    ensures Decide(b, req).outcome.Complete? ==>
      match b.client.value(Decide(b, req).outcome.messages, Model)
      case Success(text) => Handle(b, req).response == Response(200, ResponseField(text))
      case Failure(e) => Handle(b, req).response == Response(500, ErrorField(e))
  {
    var d := Decide(b, req);
    var x := Handle(b, req);
    assert Completions(d.calls) == 0 by {
      if |d.calls| == 1 {
        assert d.calls[..0] == [];
      }
    }
    if d.outcome.Complete? {
      assert x.calls[..|x.calls| - 1] == d.calls;
    }
  }

  /**
   * Every failure raised inside the handler's `try` (decoding, retrieval,
   * completion) becomes a 500 whose payload is the error text and nothing
   * else, and a failure in decoding or retrieval stops before completion.
   */
  lemma FailuresAre500(b: Backend, req: Request)
    ensures Decide(b, req).outcome.Err500? ==>
      Handle(b, req) == Exchange(Response(500, ErrorField(Decide(b, req).outcome.error)), Decide(b, req).calls)
    ensures (b.client.Some? && req.file.Some? && HasTxtSuffix(req.file.value.filename) &&
             b.decode(req.file.value.bytes).Failure?) ==>
      Handle(b, req) == Exchange(Response(500, ErrorField(b.decode(req.file.value.bytes).error)), [])
    ensures (b.client.Some? && b.index.Some? && req.file.None? && MessageField(req.form) != "" &&
             b.index.value(MessageField(req.form), TopK).Failure?) ==>
      Handle(b, req) == Exchange(Response(500, ErrorField(b.index.value(MessageField(req.form), TopK).error)),
        [SimilaritySearch(MessageField(req.form), TopK)])
    ensures (b.client.Some? && b.index.Some? && req.file.Some? && HasTxtSuffix(req.file.value.filename) &&
             b.decode(req.file.value.bytes).Success? &&
             b.index.value(DocumentQuery(b.decode(req.file.value.bytes).value), TopK).Failure?) ==>
      Handle(b, req) == Exchange(
        Response(500, ErrorField(b.index.value(DocumentQuery(b.decode(req.file.value.bytes).value), TopK).error)),
        [SimilaritySearch(DocumentQuery(b.decode(req.file.value.bytes).value), TopK)])
    ensures (Decide(b, req).outcome.Complete? &&
             b.client.value(Decide(b, req).outcome.messages, Model).Failure?) ==>
      Handle(b, req) == Exchange(
        Response(500, ErrorField(b.client.value(Decide(b, req).outcome.messages, Model).error)),
        Decide(b, req).calls + [ChatCompletion(Decide(b, req).outcome.messages, Model)])
  {
  }

  /**
   * The question "What is a contract?" with no file and no index gets the
   * completion's text back, and the context section of the prompt it sent
   * is the placeholder.
   */
  lemma QuestionWithoutIndexScenario(b: Backend, answer: string)
    requires b.client.Some? && b.index.None?
    requires b.client.value(Messages(QuestionPrompt("What is a contract?", NoLawFound)), Model) == Success(answer)
    ensures Handle(b, Request(Some("What is a contract?"), None)) ==
      Exchange(Response(200, ResponseField(answer)),
        [ChatCompletion(Messages(QuestionPrompt("What is a contract?", NoLawFound)), Model)])
  {
  }

  /**
   * An upload `lease.txt` with no message and no index: the user turn holds
   * the document once at its content position, and the completion is called
   * once.
   */
  lemma LeaseUploadScenario(b: Backend, bytes: seq<byte>, content: string)
    requires b.client.Some? && b.index.None?
    requires b.decode(bytes) == Success(content)
    ensures Decide(b, Request(None, Some(Upload("lease.txt", bytes)))).outcome ==
      Complete(Messages(DocumentPrompt("", "lease.txt", content, NoLawFound)))
    ensures Completions(Handle(b, Request(None, Some(Upload("lease.txt", bytes)))).calls) == 1
  {
    var req := Request(None, Some(Upload("lease.txt", bytes)));
    TxtSuffixSpelling("lease.txt");
    CompletionCalledOnce(b, req);
  }
}
