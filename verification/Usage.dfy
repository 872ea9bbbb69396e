/** One call's usage, as it is recorded. */
module Usage {
  datatype Record = Record(tenant: int, apiKey: int, biz: string, dimension: string, amount: int,
                           model: string, request: string, status: int)
}
