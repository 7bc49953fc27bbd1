/** The write-side contract of internal/intent/intent.go: what an agent may send and what a grant
    says about where it may land. Times are integers, limits other than the body cap may be any int. */
module Intent {
  import opened Text

  const SCHEMA_VERSION := 2

  datatype Kind = OpenPR | UpdatePR | PostReview | PostComment | SetLabels | UnknownKind(name: string)

  datatype ScopeKind = Issue | PullRequest | Scheduled | UnknownScope(name: string)

  datatype TokenScope = ReadOnly | IssuesWrite | ContentsWrite | UnknownToken(name: string)

  datatype Verdict = CommentVerdict | RequestChanges | UnknownVerdict(name: string)

  datatype Repo = Repo(owner: string, name: string, accountId: string) {
    /** The `owner/name` under which the ledger and GitHub know the repository. */
    function Slug(): string { owner + "/" + name }
  }

  datatype Scope = Scope(kind: ScopeKind, number: int, baseRef: string, baseSHA: string, headSHA: string)

  datatype Limits = Limits(maxIntents: int, maxFiles: int, maxDiffLines: int, maxBodyBytes: nat, maxComments: int, maxLabelsAdded: int)

  datatype Grant = Grant(
    runId: string,
    repo: Repo,
    scope: Scope,
    allowedKinds: seq<Kind>,
    tokenScope: TokenScope,
    limits: Limits,
    manual: bool,
    deniedPaths: seq<string>,
    issuedAt: int,
    expiresAt: int)

  datatype ReviewComment = ReviewComment(path: string, line: int, side: string, body: string, verified: bool, evidence: string)

  /** The payload as the strict decoder for the envelope's kind sees it; anything it refuses (an
      unknown field, a wrong type, no JSON at all) is `Malformed`. */
  datatype Payload =
    | OpenPRPayload(title: string, body: string, draft: bool)
    | UpdatePRPayload(newBody: Option<string>, newDraft: Option<bool>)
    | PostReviewPayload(verdict: Verdict, summary: string, comments: seq<ReviewComment>)
    | PostCommentPayload(text: string)
    | SetLabelsPayload(add: seq<string>, remove: seq<string>)
    | Malformed(raw: string)

  datatype Envelope = Envelope(schemaVersion: int, runId: string, kind: Kind, payload: Payload)

  function DefaultLimits(): Limits { Limits(8, 40, 2000, 16384, 25, 5) }

  /** The worktree diff the executor computes itself. */
  datatype Diff = Diff(files: seq<string>, addedLines: nat, deletedLines: nat)
}
