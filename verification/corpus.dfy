/**
 The example corpus and the fixed instruction prompt (app.py, lines 27-85),
 and the question list of line 57 that the nearest-neighbour search indexes.
 */
module Corpus {

  /** One few-shot example: a question and the SQL that answers it. */
  datatype Example = Example(question: string, sqlQuery: string)

  /** The thirteen few-shot examples, in the order the source lists them. */
  const FewShots: seq<Example> := [
    Example("What is total revenue if all t-shirts of size M are sold at full price without discounts?",
            "SELECT SUM(price * stock_quantity) FROM t_shirts WHERE size='M';"),
    Example("How many total t-shirts are left in stock?",
            "SELECT SUM(stock_quantity) FROM t_shirts;"),
    Example("How many entries of records are present?",
            "SELECT COUNT(*) FROM t_shirts;"),
    Example("Tell me all the Nike t-shirts?",
            "SELECT * FROM t_shirts WHERE brand='Nike';"),
    Example("What is the average price of all t-shirts?",
            "SELECT AVG(price) FROM t_shirts;"),
    Example("Show me the t-shirts available in color red.",
            "SELECT * FROM t_shirts WHERE color='Red';"),
    Example("How many t-shirts do we have left for Nike in XS size and white color?",
            "SELECT sum(stock_quantity) FROM t_shirts WHERE brand = 'Nike' AND color = 'White' AND size = 'XS'"),
    Example("How much is the total price of the inventory for all S-size t-shirts?",
            "SELECT SUM(price*stock_quantity) FROM t_shirts WHERE size = 'S'"),
    Example("Show me tshirt ids and their stock quantities.",
            "SELECT tshirt_id, stock_quantity FROM t_shirts;"),
    Example("What is the highest discount percentage given?",
            "SELECT MAX(pct_discount) FROM discounts;"),
    Example("List all t-shirt IDs with a discount greater than 30 percent.",
            "SELECT t_shirt_id FROM discounts WHERE pct_discount > 30;"),
    Example("What is the average discount percentage?",
            "SELECT AVG(pct_discount) FROM discounts;"),
    Example("Get all records from the discount table.",
            "SELECT * FROM discounts;")
  ]

  /** The list comprehension of line 57: the question of every example. */
  function QuestionsOf(shots: seq<Example>): (qs: seq<string>)
    ensures |qs| == |shots|
    ensures forall i :: 0 <= i < |shots| ==> qs[i] == shots[i].question
  {
    if shots == [] then [] else [shots[0].question] + QuestionsOf(shots[1..])
  }

  const Questions: seq<string> := QuestionsOf(FewShots)

  /** The corpus has thirteen entries, and the question list is aligned with
      it position by position. */
  lemma CorpusShape()
    ensures |FewShots| == 13
    ensures |Questions| == |FewShots|
    ensures forall i :: 0 <= i < |FewShots| ==> Questions[i] == FewShots[i].question
  {
  }

  /** The instruction block `prompt[0]` of lines 63-85, sent unchanged with
      every question. */
  const InstructionBlock: string :=
    "\n"
    + "You are an expert in converting English questions to SQL queries!\n"
    + "The SQL database has two tables: \n"
    + "1. `t_shirts` with columns - brand, color, size, price, stock_quantity\n"
    + "2. `discounts` with columns - discount_id, t_shirt_id, pct_discount\n"
    + "\n"
    + "Please provide only SQL queries without any extra explanation.\n"
    + "Here are some examples:\n"
    + "\n"
    + "- What is total revenue if all t-shirts of size M are sold at full price?  \n"
    + "  SQL: SELECT SUM(price * stock_quantity) FROM t_shirts WHERE size='M';\n"
    + "\n"
    + "- How many total t-shirts are left in stock?  \n"
    + "  SQL: SELECT SUM(stock_quantity) FROM t_shirts;\n"
    + "\n"
    + "- Show me tshirt ids and their stock quantities.  \n"
    + "  SQL: SELECT tshirt_id, stock_quantity FROM t_shirts;\n"
    + "\n"
    + "- List all t-shirt IDs with a discount greater than 30 percent.  \n"
    + "  SQL: SELECT t_shirt_id FROM discounts WHERE pct_discount > 30;\n"
    + "          \n"
    + "Please provide only SQL queries without any additional formatting or words.\n"

  /** The list `prompt` of line 63. */
  const Prompt: seq<string> := [InstructionBlock]
}
