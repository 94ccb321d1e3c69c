/** The question record shared by the bank, the lifelines and the priority queue. */
module Questions {
  datatype Question = Question(
    id: int,
    category: int,
    text: string,
    options: seq<string>,
    correctAnswerIndex: int,
    hint: string)

  /** What the bank hands out once every question has been asked. */
  const NoMoreQuestions: Question := Question(-1, 0, "No more questions", [], -1, "")
}
