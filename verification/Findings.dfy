/** What the search agents hand on. */
module Findings {

  datatype Finding = Finding(url: string, title: string, facts: string, summary: string, evidence: string, round: int)
}
