/** The stored entities of the allowance tracker: one datatype per table row
    (backend/src/types.ts). Prices are whole currency units. */
module Types {

  datatype Chore = Chore(id: string, name: string, price: int, createdAt: string, updatedAt: string)

  datatype Child = Child(id: string, name: string, createdAt: string, updatedAt: string)

  /** "This child completed this chore on this date." Duplicates are legitimate. */
  datatype ChoreRecord = ChoreRecord(
    id: string,
    choreId: string,
    childId: string,
    date: string,
    createdAt: string,
    updatedAt: string)
}
