/** The records of the application (types.ts). */
module Types {

  /** A calendar day, numbered consecutively. Stands for an ISO `yyyy-mm-dd`
      string: two well-formed ISO strings are equal exactly when their day
      numbers are, and their `Date` times compare as their day numbers do. */
  type Day = int

  /** One recorded transaction; `categoryId` refers to a `Category.id` but is
      not validated. Amounts are exact reals. */
  datatype Expense = Expense(
    id: string,
    description: string,
    amount: real,
    date: Day,
    categoryId: string)

  /** A budget bucket. */
  datatype Category = Category(id: string, name: string, budget: real, color: string)

  /** The identity of a signed-in user. */
  datatype User = User(name: string, email: string)

  /** The three top-level screens of the application. */
  datatype ViewState = Landing | Auth | Dashboard
}
