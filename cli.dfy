/**
 * The command-line entry points of `challengeutils` whose own logic is more
 * than a call: the links printed after a challenge is created, the body of
 * a mail, the privacy flag of `annotatesubmission`, the paths written by
 * `downloadsubmission` and the dispatch to the chosen sub-command.
 */
module Cli {
  import opened Wrappers
  import opened Dicts
  import Text
  import opened Annotations
  import opened Platform
  import Utils

  // ---------------------------------------------------------------------
  // createchallenge: the links to the created projects and teams
  // ---------------------------------------------------------------------

  const SynapseUrl := "https://www.synapse.org/#!Synapse:"
  const TeamUrl := "https://www.synapse.org/#!Team:"

  /** The link for one created component: projects and teams have one, anything else none. */
  function UrlFor(component: string, id: string): Option<string> {
    if Text.EndsWith(component, "projectid") then Some(SynapseUrl + id)
    else if Text.EndsWith(component, "teamid") then Some(TeamUrl + id)
    else None
  }

  /** The `urls` dict after the loop has visited the components `cs`, in order. */
  function Urls(cs: Dict<string, string>): (r: Dict<string, string>)
    ensures Keys(r) <= Keys(cs)
    ensures forall k :: k in Keys(r) ==> Text.EndsWith(k, "projectid") || Text.EndsWith(k, "teamid")
  {
    if cs == [] then []
    else
      var init, p := cs[..|cs| - 1], cs[|cs| - 1];
      KeysAppend(init, [p]);
      assert cs == init + [p];
      match UrlFor(p.0, p.1)
      case Some(u) => Put(Urls(init), p.0, u)
      case None => Urls(init)
  }

  /**
   * `command_createchallenge` after `createchallenge.main`: one link per
   * project or team component, then the challenge name under `name`.
   */
  method ComponentUrls(components: Dict<string, string>, challengeName: string) returns (urls: Dict<string, string>)
    ensures urls == Put(Urls(components), "name", challengeName)
    ensures Get(urls, "name") == Some(challengeName)
    ensures forall k :: k != "name" ==> Get(urls, k) == Get(Urls(components), k)
  {
    urls := [];
    for i := 0 to |components|
      invariant urls == Urls(components[..i])
    {
      assert components[..i + 1][..i] == components[..i];
      var component, id := components[i].0, components[i].1;
      if Text.EndsWith(component, "projectid") {
        urls := Put(urls, component, SynapseUrl + id);
      } else if Text.EndsWith(component, "teamid") {
        urls := Put(urls, component, TeamUrl + id);
      }
    }
    assert components[..|components|] == components;
    var before := urls;
    urls := Put(urls, "name", challengeName);
    forall k ensures Get(urls, k) == if k == "name" then Some(challengeName) else Get(before, k) {
      GetPut(before, "name", challengeName, k);
    }
  }

  /**
   * Every component with a link finds it, and only those: a project id
   * links to its Synapse page, a team id to its team page.
   */
  lemma UrlsLookup(cs: Dict<string, string>)
    requires DistinctKeys(cs)
    ensures forall i :: 0 <= i < |cs| ==> Get(Urls(cs), cs[i].0) == UrlFor(cs[i].0, cs[i].1)
  {
    forall j, k | 0 <= j < |cs| && 0 <= k < |cs| && cs[j].0 == cs[k].0 ensures j == k {
      DistinctKeysIndex(cs, j, k);
    }
    UrlsLookupAt(cs);
  }

  lemma {:induction false} UrlsLookupAt(cs: Dict<string, string>)
    requires forall j, k :: 0 <= j < |cs| && 0 <= k < |cs| && cs[j].0 == cs[k].0 ==> j == k
    ensures forall i :: 0 <= i < |cs| ==> Get(Urls(cs), cs[i].0) == UrlFor(cs[i].0, cs[i].1)
  {
    if cs != [] {
      var init, p := cs[..|cs| - 1], cs[|cs| - 1];
      assert cs == init + [p];
      UrlsLookupAt(init);
      forall i | 0 <= i < |cs| ensures Get(Urls(cs), cs[i].0) == UrlFor(cs[i].0, cs[i].1) {
        if i < |cs| - 1 {
          assert init[i] == cs[i];
          UrlsSnocOther(init, p, cs[i].0);
        } else {
          assert p.0 !in Keys(init) by {
            KeysMembers(init, p.0);
          }
          UrlsSnocLast(init, p);
        }
      }
    }
  }

  /** Visiting one more component leaves the links of the other keys as they were. */
  lemma UrlsSnocOther(init: Dict<string, string>, p: (string, string), k: string)
    requires k != p.0
    ensures Get(Urls(init + [p]), k) == Get(Urls(init), k)
  {
    assert (init + [p])[..|init|] == init;
    if UrlFor(p.0, p.1).Some? {
      GetPut(Urls(init), p.0, UrlFor(p.0, p.1).value, k);
    }
  }

  /** Visiting a component not seen before gives it its own link, if it has one. */
  lemma UrlsSnocLast(init: Dict<string, string>, p: (string, string))
    requires p.0 !in Keys(init)
    ensures Get(Urls(init + [p]), p.0) == UrlFor(p.0, p.1)
  {
    assert (init + [p])[..|init|] == init;
    if UrlFor(p.0, p.1).Some? {
      GetPut(Urls(init), p.0, UrlFor(p.0, p.1).value, p.0);
    }
  }

  // ---------------------------------------------------------------------
  // sendemail
  // ---------------------------------------------------------------------

  /** A mail as handed to `sendMessage`. */
  datatype Mail = Mail(userIds: seq<string>, subject: string, body: string)

  /**
   * `command_send_email`: every escaped newline of the message becomes an
   * HTML line break, so the body is the message's pieces between escaped
   * newlines joined by `<br>`; a message without one is sent as it is.
   */
  function SendEmail(userIds: seq<string>, subject: string, message: string): (m: Mail)
    ensures m.userIds == userIds && m.subject == subject
    ensures m.body == Text.Join(Text.SplitEscaped(message), Text.LineBreak)
    ensures Text.NoEscapedNewline(m.body)
    ensures Text.NoEscapedNewline(message) ==> m.body == message
  {
    Text.ReplaceJoin(message);
    Text.ReplaceLeavesNone(message);
    if Text.NoEscapedNewline(message) then
      Text.ReplaceIdentity(message);
      Mail(userIds, subject, Text.ReplaceEscapedNewlines(message))
    else
      Mail(userIds, subject, Text.ReplaceEscapedNewlines(message))
  }

  // ---------------------------------------------------------------------
  // annotatesubmission
  // ---------------------------------------------------------------------

  const AnnotateJsonName := "annotate_submission_with_json"

  /**
   * The keyword parameters of `utils.annotate_submission_with_json`, as
   * tests/test_utils.py:207-222 calls it.
   */
  const AnnotateJsonKeywords: set<string> := {"to_public", "force"}

  /** The TypeError for a keyword argument the callee does not declare. */
  function UnexpectedKeyword(callee: string, keyword: string): string {
    callee + "() got an unexpected keyword argument '" + keyword + "'"
  }

  /** The keywords of one call are distinct: Python refuses a repeated keyword before calling. */
  predicate DistinctNames(kwargs: seq<(string, bool)>) {
    forall i, j :: 0 <= i < j < |kwargs| ==> kwargs[i].0 != kwargs[j].0
  }

  /**
   * Binding the keyword arguments of a call to
   * `annotate_submission_with_json`: the first keyword it does not declare
   * raises; otherwise `to_public` and `force` take the values passed for
   * them, or their defaults.
   */
  function BindAnnotateFlags(kwargs: seq<(string, bool)>, defaults: (bool, bool)): (r: Result<(bool, bool), string>)
    requires DistinctNames(kwargs)
    ensures r.Failure? <==> exists i :: 0 <= i < |kwargs| && kwargs[i].0 !in AnnotateJsonKeywords
    ensures r.Failure? ==> exists i :: 0 <= i < |kwargs| && kwargs[i].0 !in AnnotateJsonKeywords
                             && (forall j :: 0 <= j < i ==> kwargs[j].0 in AnnotateJsonKeywords)
                             && r.error == UnexpectedKeyword(AnnotateJsonName, kwargs[i].0)
    ensures r.Success? ==> forall i :: 0 <= i < |kwargs| ==>
                             (kwargs[i].0 == "to_public" ==> r.value.0 == kwargs[i].1)
                             && (kwargs[i].0 == "force" ==> r.value.1 == kwargs[i].1)
    ensures r.Success? && (forall i :: 0 <= i < |kwargs| ==> kwargs[i].0 != "to_public") ==> r.value.0 == defaults.0
    ensures r.Success? && (forall i :: 0 <= i < |kwargs| ==> kwargs[i].0 != "force") ==> r.value.1 == defaults.1
  {
    if kwargs == [] then Success(defaults)
    else if kwargs[0].0 !in AnnotateJsonKeywords then Failure(UnexpectedKeyword(AnnotateJsonName, kwargs[0].0))
    else
      var rest := kwargs[1..];
      assert forall i :: 0 <= i < |rest| ==> rest[i] == kwargs[i + 1];
      match BindAnnotateFlags(rest, defaults)
      case Failure(e) => Failure(e)
      case Success(flags) =>
        Success(if kwargs[0].0 == "to_public" then (kwargs[0].1, flags.1) else (flags.0, kwargs[0].1))
  }

  /**
   * The call as written binds no flag and raises for `is_private`; the
   * same call with `to_public` binds both flags as given, whatever the
   * defaults.
   */
  lemma KeywordMismatch(toPublic: bool, force: bool, defaults: (bool, bool))
    ensures BindAnnotateFlags([("is_private", !toPublic), ("force", force)], defaults)
            == Failure(UnexpectedKeyword(AnnotateJsonName, "is_private"))
    ensures BindAnnotateFlags([("to_public", toPublic), ("force", force)], defaults) == Success((toPublic, force))
  {
    var written, intended := [("is_private", !toPublic), ("force", force)], [("to_public", toPublic), ("force", force)];
    assert written[1..] == [("force", force)] && intended[1..] == [("force", force)];
    assert "is_private" !in AnnotateJsonKeywords;
  }

  /**
   * `utils.annotate_submission_with_json(syn, submission_id, values,
   * **kwargs)`: a keyword the callee does not declare raises before
   * anything is read or stored; otherwise the values are merged into the
   * submission's status with the bound flags. `defaults` are the defaults
   * of the callee's flags.
   */
  method CallAnnotateWithJson(syn: Synapse, submissionId: string, values: Dict<string, Option<Value>>,
                              kwargs: seq<(string, bool)>, defaults: (bool, bool))
    returns (r: Result<SubmissionStatus, string>)
    requires syn.Valid() && DistinctNames(kwargs)
    modifies syn
    ensures syn.Valid()
    ensures BindAnnotateFlags(kwargs, defaults).Failure? ==> r == Failure(BindAnnotateFlags(kwargs, defaults).error)
    ensures BindAnnotateFlags(kwargs, defaults).Success? ==>
              var flags := BindAnnotateFlags(kwargs, defaults).value;
              && (submissionId !in old(syn.statuses) ==> r == Failure(Utils.StatusNotFound))
              && (submissionId in old(syn.statuses) ==>
                    r == Utils.UpdateSingleSubmissionStatus(old(syn.statuses)[submissionId],
                                                            Plain(Utils.DropNone(values)), flags.0, flags.1))
    ensures r.Success? ==> syn.stored == old(syn.stored) + [r.value]
    ensures r.Failure? ==> syn.stored == old(syn.stored) && syn.statuses == old(syn.statuses)
    ensures syn.notices == old(syn.notices) && syn.projects == old(syn.projects)
  {
    var flags := BindAnnotateFlags(kwargs, defaults);
    if flags.Failure? {
      return Failure(flags.error);
    }
    r := Utils.AnnotateSubmission(syn, submissionId, values, flags.value.0, flags.value.1);
  }

  /**
   * `command_annotate_submission_with_json` as written: it passes
   * `is_private`, a keyword the callee does not declare, so every call
   * raises a TypeError and nothing is stored.
   */
  method AnnotateSubmissionWithJsonAsWritten(syn: Synapse, submissionId: string, values: Dict<string, Option<Value>>,
                                             toPublic: bool, force: bool, defaults: (bool, bool))
    returns (r: Result<SubmissionStatus, string>)
    requires syn.Valid()
    modifies syn
    ensures syn.Valid()
    ensures r == Failure(UnexpectedKeyword(AnnotateJsonName, "is_private"))
    ensures syn.stored == old(syn.stored) && syn.statuses == old(syn.statuses)
    ensures syn.notices == old(syn.notices) && syn.projects == old(syn.projects)
  {
    var isPrivate := !toPublic;
    r := CallAnnotateWithJson(syn, submissionId, values, [("is_private", isPrivate), ("force", force)], defaults);
  }

  /**
   * `command_annotate_submission_with_json` as intended: the annotations
   * are private unless `--to_public` is given, and the callee receives that
   * flag under its own name, `to_public`. The values are those read from
   * the JSON file.
   */
  method AnnotateSubmissionWithJson(syn: Synapse, submissionId: string, values: Dict<string, Option<Value>>,
                                    toPublic: bool, force: bool, defaults: (bool, bool))
    returns (r: Result<SubmissionStatus, string>)
    requires syn.Valid()
    modifies syn
    ensures syn.Valid()
    ensures submissionId !in old(syn.statuses) ==> r == Failure(Utils.StatusNotFound)
    ensures submissionId in old(syn.statuses) ==>
              r == Utils.UpdateSingleSubmissionStatus(old(syn.statuses)[submissionId], Plain(Utils.DropNone(values)),
                                                      toPublic, force)
    ensures r.Success? ==> syn.stored == old(syn.stored) + [r.value]
    ensures r.Failure? ==> syn.stored == old(syn.stored) && syn.statuses == old(syn.statuses)
    ensures syn.notices == old(syn.notices) && syn.projects == old(syn.projects)
  {
    var isPrivate := !toPublic;
    r := CallAnnotateWithJson(syn, submissionId, values, [("to_public", !isPrivate), ("force", force)], defaults);
  }

  // ---------------------------------------------------------------------
  // downloadsubmission --output
  // ---------------------------------------------------------------------

  /** What `--output` does to the files: the rename, if any, and the `file_path` written to the JSON file. */
  datatype DownloadOutput = DownloadOutput(renamed: Option<(string, string)>, filePath: string)

  /** The name a downloaded submission is given in the working directory. */
  function SubmissionFileName(submissionId: string): (name: string)
    ensures |name| == 11 + |submissionId| && name[11..] == submissionId
  {
    "submission-" + submissionId
  }

  /**
   * `command_download_submission` with `--output`: a downloaded file is
   * moved to the submission's own name; the JSON file always names that
   * path, whether or not there was a file to move.
   */
  function DownloadedFile(submissionId: string, downloaded: Option<string>): (out: DownloadOutput)
    ensures out.filePath == SubmissionFileName(submissionId)
    ensures out.renamed.Some? <==> downloaded.Some?
    ensures downloaded.Some? ==> out.renamed.value == (downloaded.value, out.filePath)
  {
    match downloaded
    case Some(path) => DownloadOutput(Some((path, SubmissionFileName(submissionId))), SubmissionFileName(submissionId))
    case None => DownloadOutput(None, SubmissionFileName(submissionId))
  }

  /** Two submissions never claim the same output path, wherever they were downloaded to. */
  lemma DownloadedFileInjective(id1: string, d1: Option<string>, id2: string, d2: Option<string>)
    requires DownloadedFile(id1, d1).filePath == DownloadedFile(id2, d2).filePath
    ensures id1 == id2
  {
    assert SubmissionFileName(id1)[11..] == SubmissionFileName(id2)[11..];
  }

  // ---------------------------------------------------------------------
  // Dispatch
  // ---------------------------------------------------------------------

  /**
   * `perform_main`: with a sub-command chosen, its function is called once
   * with the arguments and what it raises, if anything, propagates
   * unchanged; without one nothing is called and nothing is raised.
   */
  method PerformMain<A>(args: A, func: Option<Callable<A>>) returns (raised: Option<string>)
    modifies if func.Some? then {func.value} else {}
    ensures func.None? ==> raised.None?
    ensures func.Some? ==> func.value.calls == old(func.value.calls) + [args] && raised == func.value.raises(args)
  {
    if func.Some? {
      raised := func.value.Call(args);
    } else {
      raised := None;
    }
  }
}
