/** The "extract from GitHub" form: blank fields fall back to the project's
    own list file. */
module GithubForm {
  import opened Common

  const DefaultRepo := "potlucy73-hue/csa"
  const DefaultFilePath := "mc_list.txt"
  const DefaultBranch := "main"

  /** The query parameters the form sends. */
  datatype GithubRequest = GithubRequest(repo: string, filePath: string, branch: string)

  /** `formData.get(name) || default` for the three fields; an absent field
      is `None`. */
  function GithubRequestFor(repo: Option<string>, filePath: Option<string>, branch: Option<string>): (r: GithubRequest)
  {
    GithubRequest(OrDefault(repo, DefaultRepo), OrDefault(filePath, DefaultFilePath), OrDefault(branch, DefaultBranch))
  }

  /** Each field is the typed value when one is typed and its default when
      the field is blank or missing; so no parameter is ever empty. */
  lemma GithubRequestDefaults(repo: Option<string>, filePath: Option<string>, branch: Option<string>)
    ensures var r := GithubRequestFor(repo, filePath, branch);
      && (r.repo == if Truthy(repo) then repo.value else DefaultRepo)
      && (r.filePath == if Truthy(filePath) then filePath.value else DefaultFilePath)
      && (r.branch == if Truthy(branch) then branch.value else DefaultBranch)
      && r.repo != "" && r.filePath != "" && r.branch != ""
  {
  }

  /** An empty form asks for the project's own list on its main branch. */
  lemma BlankFormUsesDefaults()
    ensures GithubRequestFor(Some(""), None, Some("")) == GithubRequest(DefaultRepo, DefaultFilePath, DefaultBranch)
  {
  }
}
