/** The report that the agents hand on and rewrite (`ReportOutput`). */
module Report {

  class ReportOutput {
    var summary: string
    var bodyMd: string

    constructor (summary: string, bodyMd: string)
      ensures this.summary == summary && this.bodyMd == bodyMd
    {
      this.summary, this.bodyMd := summary, bodyMd;
    }
  }
}
