/** The persistent entities, Customer and Transaction, as the services see them. */
module Entities {
  import opened Errors
  import opened MonthKeys

  /** Transaction ids are generated by the store. */
  type TxId = nat

  /** A customer: its id (absent until known) and display name. Its transactions are the stored
      transactions that refer to it (the `mappedBy = "customer"` side), see Repositories. */
  datatype Customer<CId> = Customer(id: Option<CId>, name: string)

  /** A transaction: id, amount, date and the customer it belongs to (absent in a bad request). */
  datatype Transaction<CId> = Transaction(id: Option<TxId>, amount: real, date: Date, customer: Option<Customer<CId>>)

  /** CustomerBasicDTO: a customer without its transactions. */
  datatype CustomerBasic<CId> = CustomerBasic(id: Option<CId>, name: string)

  /** `Character.isWhitespace` on the ASCII range. */
  predicate IsWhitespace(c: char) {
    c == ' ' || '\t' <= c <= '\r' || '\U{1C}' <= c <= '\U{1F}'
  }

  /** `@NotBlank`: the name holds at least one character that is not white space. */
  predicate NotBlank(s: string) {
    exists i :: 0 <= i < |s| && !IsWhitespace(s[i])
  }

  /** `@DecimalMin("0.0")` on the amount. */
  predicate ValidAmount(amount: real) {
    amount >= 0.0
  }
}
