/**
  The question bank (`perguntas`), the answer log (`respostas_usuarios`) and
  the eligibility filter of the question fetch handler.
*/
module Questions {

  /** Largest batch one fetch returns (`LIMIT 10`). */
  const BatchSize := 10

  /** A row of `perguntas`; `opcoes` are opcao_a..opcao_d in order. */
  datatype Question = Question(
    id: int,
    categoria: string,
    pergunta: string,
    opcoes: seq<string>,
    respostaCorreta: string)

  /** A row of `respostas_usuarios`. */
  datatype Answer = Answer(usuarioId: int, perguntaId: int, acertou: bool)

  /** `id` is the primary key of `perguntas`. */
  predicate DistinctIds(qs: seq<Question>)
  {
    forall i, j :: 0 <= i < j < |qs| ==> qs[i].id != qs[j].id
  }

  /** `SELECT pergunta_id FROM respostas_usuarios WHERE usuario_id = $2`. */
  function AnsweredBy(answers: seq<Answer>, usuarioId: int): set<int>
  {
    set a | a in answers && a.usuarioId == usuarioId :: a.perguntaId
  }

  /** `categoria = $1 AND id NOT IN (...)` for one row. */
  predicate IsEligible(q: Question, categoria: string, answered: set<int>)
  {
    q.categoria == categoria && q.id !in answered
  }

  /**
    The rows of `bank` that pass the WHERE clause, in table order: exactly the
    questions of the category whose id the user has not answered.
  */
  function Eligible(bank: seq<Question>, categoria: string, answered: set<int>): (pool: seq<Question>)
    ensures |pool| <= |bank|
    ensures forall q :: q in pool <==> q in bank && IsEligible(q, categoria, answered)
    ensures DistinctIds(bank) ==> DistinctIds(pool)
  {
    if bank == [] then []
    else
      var rest := Eligible(bank[1..], categoria, answered);
      assert forall q :: q in bank[1..] ==> q in bank;
      if IsEligible(bank[0], categoria, answered) then
        assert DistinctIds(bank) ==> forall q :: q in rest ==> q.id != bank[0].id;
        [bank[0]] + rest
      else rest
  }

  /**
    Answering only shrinks the pool: after one more answer row, a question is
    eligible iff it was eligible before and is not the one just answered by
    this user. Other users' pools do not move.
  */
  lemma {:induction false} AnswerShrinksPool(bank: seq<Question>, answers: seq<Answer>, a: Answer, usuarioId: int, categoria: string)
    ensures |Eligible(bank, categoria, AnsweredBy(answers + [a], usuarioId))| <= |Eligible(bank, categoria, AnsweredBy(answers, usuarioId))|
    ensures forall q :: q in Eligible(bank, categoria, AnsweredBy(answers + [a], usuarioId)) <==>
      q in Eligible(bank, categoria, AnsweredBy(answers, usuarioId)) && !(a.usuarioId == usuarioId && q.id == a.perguntaId)
    ensures a.usuarioId != usuarioId ==>
      Eligible(bank, categoria, AnsweredBy(answers + [a], usuarioId)) == Eligible(bank, categoria, AnsweredBy(answers, usuarioId))
  {
    var before, after := AnsweredBy(answers, usuarioId), AnsweredBy(answers + [a], usuarioId);
    assert after == if a.usuarioId == usuarioId then before + {a.perguntaId} else before;
    SubsetShrinksPool(bank, categoria, before, after);
  }

  /** A larger answered set never yields a longer pool. */
  lemma {:induction false} SubsetShrinksPool(bank: seq<Question>, categoria: string, small: set<int>, large: set<int>)
    requires small <= large
    ensures |Eligible(bank, categoria, large)| <= |Eligible(bank, categoria, small)|
  {
    if bank != [] {
      SubsetShrinksPool(bank[1..], categoria, small, large);
    }
  }

  /** The pool is empty exactly when the user has answered every question of the category. */
  lemma EmptyPoolIffAllAnswered(bank: seq<Question>, categoria: string, answered: set<int>)
    ensures Eligible(bank, categoria, answered) == [] <==>
      forall q :: q in bank && q.categoria == categoria ==> q.id in answered
  {
  }
}
