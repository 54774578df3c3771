/** The transaction records the frontend pages receive from the expense
    endpoints: JSON objects read property by property. */
module Transactions {
  import opened Values
  import opened Dates

  /** A transaction record: a JSON object. */
  type Txn = map<string, Value>

  /** `t.name`: undefined when the property is absent. */
  function Get(t: Txn, name: string): Value
  {
    if name in t then t[name] else Undefined
  }

  /** `t.category_code || 'OTHER'`: the code a transaction is counted under. */
  function CodeKey(t: Txn): (k: Value)
    ensures Truthy(k)
    ensures Truthy(Get(t, "category_code")) ==> k == Get(t, "category_code")
    ensures !Truthy(Get(t, "category_code")) ==> k == Str("OTHER")
  {
    if Truthy(Get(t, "category_code")) then Get(t, "category_code") else Str("OTHER")
  }

  /** The calendar year and the month index (0 for January) of
      `new Date(t.transaction_date)`, read as the calendar day the
      `YYYY-MM-DD` text names; `null` and the booleans convert to the first
      milliseconds of 1970; None for an invalid date. */
  function DateOf(t: Txn): (r: Option<(int, int)>)
    ensures r.Some? ==> 0 <= r.value.1 < 12
    ensures Get(t, "transaction_date").Undefined? ==> r.None?
    ensures Get(t, "transaction_date").Null? || Get(t, "transaction_date").Bool? ==> r == Some((1970, 0))
    ensures Get(t, "transaction_date").Str? && IsCalendarDate(Get(t, "transaction_date").s) ==>
              r == Some((Year(Get(t, "transaction_date").s), Month(Get(t, "transaction_date").s) - 1))
  {
    var d := Get(t, "transaction_date");
    if d.Null? || d.Bool? then Some((1970, 0))
    else if d.Str? && IsCalendarDate(d.s) then Some((Year(d.s), Month(d.s) - 1))
    else None
  }
}
